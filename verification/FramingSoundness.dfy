/** What passing either validator says about the framing of a message, and how the two agree. */
module FramingSoundness {
  import opened Common
  import opened Framing
  import opened FramingText

  predicate Rejects(es: seq<Entry>, k: Kind) {
    Entry(k, Reject) in es
  }

  lemma PassedRejectsNothing(es: seq<Entry>, k: Kind)
    requires !Has(es, Reject)
    ensures !Rejects(es, k)
  {
  }

  lemma AddIfRejects(es: seq<Entry>, found: bool, kind: Kind, severity: Severity, k: Kind)
    ensures Rejects(AddIf(es, found, kind, severity), k)
       <==> Rejects(es, k) || (found && severity == Reject && kind == k)
  {
  }

  predicate HeaderBad(h: Header, k: Kind) {
    (k.InvalidHeaderName? && !ValidHeaderName(h.name)) || (k.InvalidHeaderValue? && !ValidHeaderValue(h.value))
  }

  lemma HeaderRejects(es: seq<Entry>, h: Header, k: Kind)
    ensures Rejects(HeaderChecked(es, h), k) <==> Rejects(es, k) || HeaderBad(h, k)
  {
    hide AddIf, ValidHeaderName, ValidHeaderValue;
    AddIfRejects(es, !ValidHeaderName(h.name), InvalidHeaderName, Reject, k);
    AddIfRejects(AddIf(es, !ValidHeaderName(h.name), InvalidHeaderName, Reject),
                 !ValidHeaderValue(h.value), InvalidHeaderValue, Reject, k);
  }

  lemma {:induction false} HeadersReject(es: seq<Entry>, hs: seq<Header>, k: Kind)
    ensures Rejects(HeadersChecked(es, hs), k) <==> Rejects(es, k) || exists i :: 0 <= i < |hs| && HeaderBad(hs[i], k)
    decreases |hs|
  {
    hide HeaderChecked, HeaderBad, Rejects;
    if hs != [] {
      HeadersReject(es, hs[..|hs| - 1], k);
      HeaderRejects(HeadersChecked(es, hs[..|hs| - 1]), hs[|hs| - 1], k);
    }
  }

  lemma {:induction false} TokensReject(lib: Library, es: seq<Entry>, tokens: seq<string>, k: Kind)
    ensures Rejects(es, k) ==> Rejects(TokensChecked(lib, es, tokens), k)
    ensures !k.TransferEncodingInvalid? ==> (Rejects(TokensChecked(lib, es, tokens), k) <==> Rejects(es, k))
    decreases |tokens|
  {
    if tokens != [] {
      TokensReject(lib, es, tokens[..|tokens| - 1], k);
    }
  }

  lemma LengthRejects(lib: Library, es: seq<Entry>, vs: seq<seq<Byte>>, k: Kind)
    requires vs != []
    ensures Rejects(LengthChecked(lib, es, vs).0, k)
       <==> || Rejects(es, k)
            || (k.ConflictingContentLength? && |vs| > 1 && !AllSame(lib, vs))
            || (k.ContentLengthMismatch? && (|vs| > 1 ==> AllSame(lib, vs)) && LengthOf(lib, vs[0]).None?
                && (lib.fromUtf8(vs[0]).None? || Signed(lib, vs[0])))
  {
    hide LengthOf, Signed, AllSame;
  }

  lemma EncodingRejects(lib: Library, es: seq<Entry>, te: seq<Byte>, hasLength: bool, k: Kind)
    requires !k.TransferEncodingInvalid?
    ensures Rejects(EncodingChecked(lib, es, te, hasLength).0, k)
       <==> Rejects(es, k) || (k.TransferEncodingWithContentLength? && hasLength && lib.fromUtf8(te).Some?)
  {
    hide TokensChecked, ChunkedNotLast, Tokens, Trim;
    if lib.fromUtf8(te).Some? {
      var tokens := Tokens(Trim(lib.fromUtf8(te).value));
      var both := AddIf(es, hasLength, TransferEncodingWithContentLength, Reject);
      TokensReject(lib, both, tokens, k);
    }
  }

  /** Every way a parsed request's headers are rejected, save for a malformed list of codings. */
  lemma RequestRejects(lib: Library, es: seq<Entry>, hs: seq<Header>, k: Kind)
    requires !k.TransferEncodingInvalid?
    ensures var lengths := ValuesOf(hs, "content-length");
            var encodings := ValuesOf(hs, "transfer-encoding");
            (Rejects(RequestChecked(lib, es, hs).0, k)
       <==> || Rejects(es, k)
            || (k.TooManyHeaders? && |hs| > 128)
            || (exists i :: 0 <= i < |hs| && HeaderBad(hs[i], k))
            || (lengths != [] && k.ConflictingContentLength? && |lengths| > 1 && !AllSame(lib, lengths))
            || (lengths != [] && k.ContentLengthMismatch? && (|lengths| > 1 ==> AllSame(lib, lengths))
                && LengthOf(lib, lengths[0]).None? && (lib.fromUtf8(lengths[0]).None? || Signed(lib, lengths[0])))
            || (encodings != [] && k.TransferEncodingWithContentLength? && lengths != []
                && lib.fromUtf8(encodings[0]).Some?))
  {
    hide Rejects, HeadersChecked, AddIf, LengthChecked, EncodingChecked, LengthOf, Signed, AllSame, HeaderBad, ValuesOf;
    var counted := CountChecked(es, hs);
    AddIfRejects(es, |hs| > MAX_HEADERS_COUNT, TooManyHeaders, Reject, k);
    HeadersReject(counted, hs, k);
    var checked := HeadersChecked(counted, hs);
    var lengths := ValuesOf(hs, "content-length");
    var encodings := ValuesOf(hs, "transfer-encoding");
    var le := if lengths == [] then checked else LengthChecked(lib, checked, lengths).0;
    if lengths != [] {
      LengthRejects(lib, checked, lengths, k);
    }
    if encodings != [] {
      EncodingRejects(lib, le, encodings[0], lengths != [], k);
    }
  }

  lemma BadEncodingTextRejected(lib: Library, es: seq<Entry>, hs: seq<Header>)
    requires ValuesOf(hs, "transfer-encoding") != []
    requires lib.fromUtf8(ValuesOf(hs, "transfer-encoding")[0]).None?
    ensures Rejects(RequestChecked(lib, es, hs).0, TransferEncodingInvalid)
  {
    hide HeadersChecked, LengthChecked, ValuesOf;
  }

  lemma PassedFindsOneFraming(lib: Library, es: seq<Entry>, hs: seq<Header>)
    requires !Has(RequestChecked(lib, es, hs).0, Reject)
    ensures ValuesOf(hs, "content-length") == [] || ValuesOf(hs, "transfer-encoding") == []
  {
    hide RequestChecked, Rejects;
    PassedRejectsNothing(RequestChecked(lib, es, hs).0, TransferEncodingWithContentLength);
    PassedRejectsNothing(RequestChecked(lib, es, hs).0, TransferEncodingInvalid);
    RequestRejects(lib, es, hs, TransferEncodingWithContentLength);
    if ValuesOf(hs, "transfer-encoding") != [] && lib.fromUtf8(ValuesOf(hs, "transfer-encoding")[0]).None? {
      BadEncodingTextRejected(lib, es, hs);
    }
  }

  /** A request that passes never carries both a Content-Length and a Transfer-Encoding, whichever way
      their names are capitalised. */
  lemma PassedCarriesOneFraming(lib: Library, es: seq<Entry>, hs: seq<Header>, i: nat, j: nat)
    requires !Has(RequestChecked(lib, es, hs).0, Reject) && i < |hs| && j < |hs|
    ensures !(Named(hs[i], "content-length") && Named(hs[j], "transfer-encoding"))
  {
    PassedFindsOneFraming(lib, es, hs);
    ValuesNamed(hs, "content-length", hs[i].value);
    ValuesNamed(hs, "transfer-encoding", hs[j].value);
    hide RequestChecked, ValuesOf, Named;
  }

  lemma NoLengthInNothing(lib: Library)
    ensures ParseU64(Trim("")).None?
  {
  }

  lemma ReportedLengthIsEachValue(lib: Library, es: seq<Entry>, hs: seq<Header>, i: nat)
    requires RequestChecked(lib, es, hs).1.Some? && i < |ValuesOf(hs, "content-length")|
    ensures LengthOf(lib, ValuesOf(hs, "content-length")[i]) == RequestChecked(lib, es, hs).1
  {
    var vs := ValuesOf(hs, "content-length");
    NoLengthInNothing(lib);
    hide ParseU64, Trim, HeadersChecked, EncodingChecked, ValuesOf;
    assert LengthOf(lib, vs[0]) == RequestChecked(lib, es, hs).1;
    if i > 0 {
      assert AllSame(lib, vs);
      assert vs[i] in vs && TextOrEmpty(lib, vs[i]) == TextOrEmpty(lib, vs[0]);
    }
  }

  /** A reported length is the value of every Content-Length header, however many there are and whichever
      way their names are capitalised. */
  lemma ReportedLengthIsEveryLength(lib: Library, es: seq<Entry>, hs: seq<Header>, i: nat)
    requires RequestChecked(lib, es, hs).1.Some? && i < |hs| && Named(hs[i], "content-length")
    ensures LengthOf(lib, hs[i].value) == RequestChecked(lib, es, hs).1
  {
    hide RequestChecked, Named, LengthOf;
    ValuesNamed(hs, "content-length", hs[i].value);
    var vs := ValuesOf(hs, "content-length");
    var k :| 0 <= k < |vs| && vs[k] == hs[i].value;
    ReportedLengthIsEachValue(lib, es, hs, k);
  }

  /** The number of Content-Length headers, of whatever capitalisation. */
  function LengthHeaders(hs: seq<Header>): nat
    decreases |hs|
  {
    if hs == [] then 0 else LengthHeaders(hs[..|hs| - 1]) + CountIf(Named(hs[|hs| - 1], "content-length"))
  }

  lemma {:induction false} LengthValues(hs: seq<Header>)
    ensures |ValuesOf(hs, "content-length")| == LengthHeaders(hs)
    decreases |hs|
  {
    hide SameLetters, SameName;
    if hs != [] {
      LengthValues(hs[..|hs| - 1]);
      SameNameIff(hs[|hs| - 1].name, "content-length");
    }
  }

  lemma OneLengthAccepted(lib: Library, es: seq<Entry>, hs: seq<Header>)
    requires |ValuesOf(hs, "content-length")| == 1 && LengthOf(lib, ValuesOf(hs, "content-length")[0]).Some?
    ensures RequestChecked(lib, es, hs).1 == LengthOf(lib, ValuesOf(hs, "content-length")[0])
    ensures forall k: Kind :: k.ContentLengthMismatch? || k.ConflictingContentLength? ==>
              (Rejects(RequestChecked(lib, es, hs).0, k) <==> Rejects(es, k))
  {
    hide LengthOf, HeadersChecked, EncodingChecked, ValuesOf, Rejects;
    forall k: Kind | k.ContentLengthMismatch? || k.ConflictingContentLength?
      ensures Rejects(RequestChecked(lib, es, hs).0, k) <==> Rejects(es, k)
    {
      RequestRejects(lib, es, hs, k);
    }
  }

  /** A single Content-Length that is a decimal number of 64 bits, with white space around it or not, is
      reported as that number and rejected by neither of its checks. */
  lemma DecimalLengthReported(
    lib: Library, es: seq<Entry>, hs: seq<Header>, i: nat, before: string, n: nat, after: string)
    requires i < |hs| && Named(hs[i], "content-length") && LengthHeaders(hs) == 1
    requires Blank(before) && Blank(after) && n < 0x1_0000_0000_0000_0000
    requires lib.fromUtf8(hs[i].value) == Some(before + Decimal(n) + after)
    ensures RequestChecked(lib, es, hs).1 == Some(n)
    ensures forall k: Kind :: k.ContentLengthMismatch? || k.ConflictingContentLength? ==>
              (Rejects(RequestChecked(lib, es, hs).0, k) <==> Rejects(es, k))
  {
    hide LengthOf, LengthHeaders, ValuesOf, Blank, Decimal, SameLetters, RequestChecked, Rejects;
    LengthOfDecimal(lib, hs[i].value, before, n, after);
    ValuesNamed(hs, "content-length", hs[i].value);
    LengthValues(hs);
    assert ValuesOf(hs, "content-length") == [hs[i].value];
    OneLengthAccepted(lib, es, hs);
  }

  // ---- warnings and codings ----

  /** What one listed coding is found guilty of. */
  predicate CodingBad(lower: string, e: Entry) {
    || (lower == "" && e == Entry(TransferEncodingInvalid, Reject))
    || (lower !in {"", "chunked", "gzip", "compress", "deflate", "br", "identity"} && e == Entry(NonStandardEncoding, Warn))
  }

  lemma TokenFindings(lib: Library, es: seq<Entry>, token: string, e: Entry)
    ensures e in TokenChecked(lib, es, token) <==> e in es || CodingBad(lib.toLowercase(token), e)
  {
    assert KNOWN_ENCODINGS[0] == "gzip" && KNOWN_ENCODINGS[1] == "compress" && KNOWN_ENCODINGS[2] == "deflate";
    assert KNOWN_ENCODINGS[3] == "br" && KNOWN_ENCODINGS[4] == "identity";
  }

  lemma {:induction false} TokensFindings(lib: Library, es: seq<Entry>, tokens: seq<string>, e: Entry)
    ensures e in TokensChecked(lib, es, tokens)
       <==> e in es || exists i :: 0 <= i < |tokens| && CodingBad(lib.toLowercase(tokens[i]), e)
    decreases |tokens|
  {
    hide TokenChecked, CodingBad;
    if tokens != [] {
      TokensFindings(lib, es, tokens[..|tokens| - 1], e);
      TokenFindings(lib, TokensChecked(lib, es, tokens[..|tokens| - 1]), tokens[|tokens| - 1], e);
    }
  }

  /** Chunked is listed, in any capitalisation, and something comes after it. */
  predicate ChunkedBeforeLast(tokens: seq<string>) {
    && |tokens| > 1 && (exists i :: 0 <= i < |tokens| && SameLetters(tokens[i], "chunked"))
    && !SameLetters(tokens[|tokens| - 1], "chunked")
  }

  lemma ChunkedNotLastIff(tokens: seq<string>)
    ensures ChunkedNotLast(tokens) <==> ChunkedBeforeLast(tokens)
  {
    forall i | 0 <= i < |tokens|
      ensures SameName(tokens[i], "chunked") <==> SameLetters(tokens[i], "chunked")
    {
      SameNameIff(tokens[i], "chunked");
    }
    hide SameName, SameLetters;
  }

  lemma NothingIsChunked()
    ensures !ChunkedNotLast([])
  {
  }

  lemma EncodingFindings(lib: Library, es: seq<Entry>, te: seq<Byte>, hasLength: bool, e: Entry)
    ensures var text := lib.fromUtf8(te);
            var tokens := if text.Some? then Tokens(Trim(text.value)) else [];
            (e in EncodingChecked(lib, es, te, hasLength).0
        <==> || e in es
             || (text.None? && e == Entry(TransferEncodingInvalid, Reject))
             || (text.Some? && hasLength && e == Entry(TransferEncodingWithContentLength, Reject))
             || (exists i :: 0 <= i < |tokens| && CodingBad(lib.toLowercase(tokens[i]), e))
             || (ChunkedBeforeLast(tokens) && e == Entry(InvalidChunkSize, Warn)))
  {
    hide TokensChecked, ChunkedNotLast, ChunkedBeforeLast, Tokens, Trim, CodingBad;
    if lib.fromUtf8(te).Some? {
      var tokens := Tokens(Trim(lib.fromUtf8(te).value));
      TokensFindings(lib, AddIf(es, hasLength, TransferEncodingWithContentLength, Reject), tokens, e);
      ChunkedNotLastIff(tokens);
    } else {
      ChunkedNotLastIff([]);
      NothingIsChunked();
    }
  }

  lemma {:induction false} HeadersFindings(es: seq<Entry>, hs: seq<Header>, e: Entry)
    requires e.kind.TransferEncodingInvalid? || e.severity == Warn
    ensures e in HeadersChecked(es, hs) <==> e in es
    decreases |hs|
  {
    hide ValidHeaderName, ValidHeaderValue;
    if hs != [] {
      HeadersFindings(es, hs[..|hs| - 1], e);
    }
  }

  lemma LengthFindings(lib: Library, es: seq<Entry>, vs: seq<seq<Byte>>, e: Entry)
    requires vs != [] && (e.kind.TransferEncodingInvalid? || e.severity == Warn)
    ensures e in LengthChecked(lib, es, vs).0
       <==> || e in es
            || (e == Entry(DoubleContentLength, Warn) && |vs| > 1 && AllSame(lib, vs))
            || (e == Entry(ContentLengthMismatch, Warn) && (|vs| > 1 ==> AllSame(lib, vs))
                && lib.fromUtf8(vs[0]).Some? && LengthOf(lib, vs[0]).None? && !Signed(lib, vs[0]))
  {
    hide LengthOf, Signed, AllSame;
  }

  /** The rest of what a parsed request's headers are found guilty of: every warning, and a malformed list of
      codings. */
  lemma RequestWarns(lib: Library, es: seq<Entry>, hs: seq<Header>, e: Entry)
    requires e.kind.TransferEncodingInvalid? || e.severity == Warn
    ensures var lengths := ValuesOf(hs, "content-length");
            var encodings := ValuesOf(hs, "transfer-encoding");
            var text := if encodings == [] then Some("") else lib.fromUtf8(encodings[0]);
            var tokens := if encodings != [] && text.Some? then Tokens(Trim(text.value)) else [];
            (e in RequestChecked(lib, es, hs).0
        <==> || e in es
             || (e == Entry(DoubleContentLength, Warn) && |lengths| > 1 && AllSame(lib, lengths))
             || (e == Entry(ContentLengthMismatch, Warn) && lengths != [] && (|lengths| > 1 ==> AllSame(lib, lengths))
                 && lib.fromUtf8(lengths[0]).Some? && LengthOf(lib, lengths[0]).None? && !Signed(lib, lengths[0]))
             || (text.None? && e == Entry(TransferEncodingInvalid, Reject))
             || (exists i :: 0 <= i < |tokens| && CodingBad(lib.toLowercase(tokens[i]), e))
             || (ChunkedBeforeLast(tokens) && e == Entry(InvalidChunkSize, Warn)))
  {
    hide HeadersChecked, LengthChecked, EncodingChecked, LengthOf, Signed, AllSame, ValuesOf;
    hide CodingBad, ChunkedBeforeLast, Tokens, Trim;
    var counted := CountChecked(es, hs);
    HeadersFindings(counted, hs, e);
    var checked := HeadersChecked(counted, hs);
    var lengths := ValuesOf(hs, "content-length");
    var encodings := ValuesOf(hs, "transfer-encoding");
    if lengths != [] {
      LengthFindings(lib, checked, lengths, e);
    }
    var le := if lengths == [] then checked else LengthChecked(lib, checked, lengths).0;
    if encodings != [] {
      EncodingFindings(lib, le, encodings[0], lengths != [], e);
    } else {
      ChunkedNotLastIff([]);
      NothingIsChunked();
    }
  }

  /** A request is reported chunked exactly when one of the codings its first Transfer-Encoding lists is. */
  lemma ChunkedIff(lib: Library, es: seq<Entry>, hs: seq<Header>)
    ensures var encodings := ValuesOf(hs, "transfer-encoding");
            (RequestChecked(lib, es, hs).2
        <==> && encodings != [] && lib.fromUtf8(encodings[0]).Some?
             && exists i :: 0 <= i < |Tokens(Trim(lib.fromUtf8(encodings[0]).value))|
                            && lib.toLowercase(Tokens(Trim(lib.fromUtf8(encodings[0]).value))[i]) == "chunked")
  {
    hide HeadersChecked, LengthChecked, TokensChecked, Tokens, Trim, ValuesOf;
  }

  // ---- the two validators ----

  lemma ListedKeepsRejects(lib: Library, es: seq<Entry>, n: Option<nat>, h: Header, repeated: bool, k: Kind)
    ensures var out := ListedChecked(lib, es, n, h, repeated).0;
            (Rejects(out, k)
       <==> || Rejects(es, k) || HeaderBad(h, k)
            || (SameName(h.name, "content-length")
                && ((repeated && k.DoubleContentLength?)
                    || (k.ContentLengthMismatch? && lib.fromUtf8(h.value).Some? && LengthOf(lib, h.value).None?))))
  {
    HeaderRejects(es, h, k);
    hide HeaderChecked, HeaderBad, LengthOf, SameName;
  }

  /** What it takes for the header list to pass: no bad header, and at most one length, which is a number
      if it is text at all. */
  predicate ListOk(lib: Library, hs: seq<Header>) {
    && (forall i :: 0 <= i < |hs| ==> ValidHeaderName(hs[i].name) && ValidHeaderValue(hs[i].value))
    && var vs := ValuesOf(hs, "content-length");
       |vs| <= 1 && (vs != [] && lib.fromUtf8(vs[0]).Some? ==> LengthOf(lib, vs[0]).Some?)
  }

  function FirstLength(lib: Library, hs: seq<Header>): Option<nat> {
    var vs := ValuesOf(hs, "content-length");
    if vs == [] then None else LengthOf(lib, vs[0])
  }

  lemma ListOkGrows(lib: Library, hs: seq<Header>)
    requires hs != [] && ListOk(lib, hs[..|hs| - 1])
    requires var h := hs[|hs| - 1];
             && ValidHeaderName(h.name) && ValidHeaderValue(h.value)
             && (SameName(h.name, "content-length") ==>
                   && ValuesOf(hs[..|hs| - 1], "content-length") == []
                   && (lib.fromUtf8(h.value).Some? ==> LengthOf(lib, h.value).Some?))
    ensures ListOk(lib, hs)
    ensures var h := hs[|hs| - 1];
            FirstLength(lib, hs) == if SameName(h.name, "content-length") && lib.fromUtf8(h.value).Some?
                                    then LengthOf(lib, h.value) else FirstLength(lib, hs[..|hs| - 1])
  {
    var h := hs[|hs| - 1];
    assert lib.fromUtf8(h.value).None? ==> LengthOf(lib, h.value).None?;
    hide SameName, LengthOf, ValidHeaderName, ValidHeaderValue;
  }

  lemma ListedLength(lib: Library, es: seq<Entry>, n: Option<nat>, h: Header, repeated: bool)
    requires SameName(h.name, "content-length") && lib.fromUtf8(h.value).Some? ==> LengthOf(lib, h.value).Some?
    ensures ListedChecked(lib, es, n, h, repeated).1
         == if SameName(h.name, "content-length") && lib.fromUtf8(h.value).Some? then LengthOf(lib, h.value) else n
  {
    hide HeaderChecked, SameName, LengthOf;
  }

  lemma {:induction false} ListPassed(lib: Library, es: seq<Entry>, hs: seq<Header>)
    requires forall k :: !Rejects(ListChecked(lib, es, hs).0, k)
    ensures forall k :: !Rejects(es, k)
    ensures ListOk(lib, hs) && ListChecked(lib, es, hs).1 == FirstLength(lib, hs)
    decreases |hs|
  {
    if hs == [] {
      assert ListChecked(lib, es, hs).0 == es;
    } else {
      hide ListedChecked, Rejects, SameName, LengthOf, ListOk, FirstLength, ValuesOf;
      var earlier := hs[..|hs| - 1];
      var h := hs[|hs| - 1];
      var (before, n) := ListChecked(lib, es, earlier);
      var repeated := ValuesOf(earlier, "content-length") != [];
      assert ListChecked(lib, es, hs) == ListedChecked(lib, before, n, h, repeated);
      forall k
        ensures !Rejects(before, k) && !HeaderBad(h, k)
      {
        ListedKeepsRejects(lib, before, n, h, repeated, k);
      }
      assert !HeaderBad(h, InvalidHeaderName) && !HeaderBad(h, InvalidHeaderValue);
      ListedKeepsRejects(lib, before, n, h, repeated, DoubleContentLength);
      ListedKeepsRejects(lib, before, n, h, repeated, ContentLengthMismatch);
      ListPassed(lib, es, earlier);
      ListedLength(lib, before, n, h, repeated);
      ListOkGrows(lib, hs);
    }
  }

  lemma HeaderListPassed(lib: Library, hs: seq<Header>)
    requires !Has(HeaderListChecked(lib, hs).0, Reject)
    ensures |hs| <= 128 && ListOk(lib, hs) && HeaderListChecked(lib, hs).1 == FirstLength(lib, hs)
    ensures ValuesOf(hs, "content-length") == [] || ValuesOf(hs, "transfer-encoding") == []
  {
    hide ListChecked, ListOk, FirstLength, ValuesOf;
    var counted := CountChecked([], hs);
    var listed := ListChecked(lib, counted, hs).0;
    var both := ValuesOf(hs, "content-length") != [] && ValuesOf(hs, "transfer-encoding") != [];
    forall k
      ensures !Rejects(listed, k) && (both ==> !k.TransferEncodingWithContentLength?)
    {
      PassedRejectsNothing(HeaderListChecked(lib, hs).0, k);
      AddIfRejects(listed, both, TransferEncodingWithContentLength, Reject, k);
    }
    assert both ==> !TransferEncodingWithContentLength.TransferEncodingWithContentLength?;
    ListPassed(lib, counted, hs);
    AddIfRejects([], |hs| > MAX_HEADERS_COUNT, TooManyHeaders, Reject, TooManyHeaders);
    assert !Rejects(counted, TooManyHeaders);
  }

  lemma {:induction false} ListOkPasses(lib: Library, es: seq<Entry>, hs: seq<Header>, k: Kind)
    requires ListOk(lib, hs)
    ensures Rejects(ListChecked(lib, es, hs).0, k) <==> Rejects(es, k)
    decreases |hs|
  {
    if hs == [] {
      assert ListChecked(lib, es, hs).0 == es;
    } else {
      hide ListedChecked, Rejects, SameName, LengthOf, ValidHeaderName, ValidHeaderValue;
      var earlier := hs[..|hs| - 1];
      var h := hs[|hs| - 1];
      var (before, n) := ListChecked(lib, es, earlier);
      assert ListOk(lib, earlier);
      ListOkPasses(lib, es, earlier, k);
      ListedKeepsRejects(lib, before, n, h, ValuesOf(earlier, "content-length") != [], k);
    }
  }

  lemma {:induction false} ListOnlyRejects(lib: Library, es: seq<Entry>, hs: seq<Header>)
    requires forall e :: e in es ==> e.severity == Reject
    ensures forall e :: e in ListChecked(lib, es, hs).0 ==> e.severity == Reject
    decreases |hs|
  {
    hide SameName, LengthOf, ValidHeaderName, ValidHeaderValue;
    if hs != [] {
      ListOnlyRejects(lib, es, hs[..|hs| - 1]);
    }
  }

  lemma HeaderListOkPasses(lib: Library, hs: seq<Header>)
    requires |hs| <= 128 && ListOk(lib, hs)
    requires ValuesOf(hs, "content-length") == [] || ValuesOf(hs, "transfer-encoding") == []
    ensures !Has(HeaderListChecked(lib, hs).0, Reject)
  {
    var es := HeaderListChecked(lib, hs).0;
    hide ListChecked, ValuesOf, ListOk;
    if Has(es, Reject) {
      var i :| 0 <= i < |es| && es[i].severity == Reject;
      ListOkPasses(lib, CountChecked([], hs), hs, es[i].kind);
    }
  }

  /** The header list passes exactly when it has at most 128 headers, all well-formed, at most one length,
      which is a number if it is text, and does not have both framing headers. It knows no warnings. */
  lemma HeaderListPassesIff(lib: Library, hs: seq<Header>)
    ensures var lengths := ValuesOf(hs, "content-length");
            (!Has(HeaderListChecked(lib, hs).0, Reject)
        <==> && |hs| <= 128
             && (forall i :: 0 <= i < |hs| ==> ValidHeaderName(hs[i].name) && ValidHeaderValue(hs[i].value))
             && |lengths| <= 1 && (lengths != [] && lib.fromUtf8(lengths[0]).Some? ==> LengthOf(lib, lengths[0]).Some?)
             && (lengths == [] || ValuesOf(hs, "transfer-encoding") == []))
    ensures !Has(HeaderListChecked(lib, hs).0, Warn)
  {
    ListOnlyRejects(lib, CountChecked([], hs), hs);
    assert !Has(HeaderListChecked(lib, hs).0, Warn) by {
      hide ListChecked, ValuesOf;
    }
    hide HeaderListChecked, ValuesOf, LengthOf, Has;
    if !Has(HeaderListChecked(lib, hs).0, Reject) {
      HeaderListPassed(lib, hs);
    } else if |hs| <= 128 && ListOk(lib, hs)
              && (ValuesOf(hs, "content-length") == [] || ValuesOf(hs, "transfer-encoding") == []) {
      HeaderListOkPasses(lib, hs);
    }
  }

  /** The findings both validators look for. */
  predicate Shared(k: Kind) {
    k.TooManyHeaders? || k.InvalidHeaderName? || k.InvalidHeaderValue? || k.ContentLengthMismatch?
    || k.DoubleContentLength? || k.ConflictingContentLength? || k.TransferEncodingWithContentLength?
  }

  /** Every Content-Length value is UTF-8. */
  ghost predicate LengthsAreText(lib: Library, hs: seq<Header>) {
    forall i :: 0 <= i < |hs| && Named(hs[i], "content-length") ==> lib.fromUtf8(hs[i].value).Some?
  }

  lemma TextInValues(lib: Library, hs: seq<Header>)
    ensures LengthsAreText(lib, hs) <==> forall v :: v in ValuesOf(hs, "content-length") ==> lib.fromUtf8(v).Some?
  {
    forall v
      ensures v in ValuesOf(hs, "content-length")
         <==> exists i :: 0 <= i < |hs| && Named(hs[i], "content-length") && hs[i].value == v
    {
      ValuesNamed(hs, "content-length", v);
    }
    hide ValuesOf, Named;
    forall i | 0 <= i < |hs| && Named(hs[i], "content-length")
      ensures hs[i].value in ValuesOf(hs, "content-length")
    {
    }
  }

  /** Agreement: once the header list has passed, the check of the parsed request rejects nothing both
      look for exactly when every Content-Length value is UTF-8; and then both report the same length. */
  lemma ValidatorsAgreeIff(lib: Library, es: seq<Entry>, hs: seq<Header>)
    requires !Has(HeaderListChecked(lib, hs).0, Reject)
    requires forall e :: e in es ==> e.kind.StartLine?
    ensures (forall k :: Shared(k) ==> !Rejects(RequestChecked(lib, es, hs).0, k)) <==> LengthsAreText(lib, hs)
    ensures LengthsAreText(lib, hs) ==> RequestChecked(lib, es, hs).1 == HeaderListChecked(lib, hs).1
  {
    TextInValues(lib, hs);
    HeaderListPassed(lib, hs);
    var vs := ValuesOf(hs, "content-length");
    hide HeaderListChecked, Has, ValuesOf, ParseU64, Trim, HeadersChecked, EncodingChecked;
    hide ValidHeaderName, ValidHeaderValue, LengthsAreText;
    assert RequestChecked(lib, es, hs).1 == if vs == [] then None else LengthOf(lib, vs[0]);
    hide RequestChecked;
    forall k | Shared(k)
      ensures Rejects(RequestChecked(lib, es, hs).0, k)
         <==> k.ContentLengthMismatch? && vs != [] && lib.fromUtf8(vs[0]).None?
    {
      RequestRejects(lib, es, hs, k);
      assert !Rejects(es, k);
    }
    assert Shared(ContentLengthMismatch);
    assert vs != [] ==> vs == [vs[0]];
  }
}
