/**
 The identities of orders and documents (`identity.rs`): the validated segments and the external ids
 composed of them.
 */
module Identity {
  import opened Wrappers
  import opened DecimalDigits
  import Texts

  const SEPARATOR: char := ':'

  const NAMESPACE_MAX: nat := 16
  const SEGMENT_MAX: nat := 40
  const EXTERNAL_ID_MAX: nat := 110

  // ---------------------------------------------------------------- characters and lengths

  function CharBytes(c: char): (n: nat)
    ensures 1 <= n <= 4
  {
    if c < '\U{80}' then 1 else if c < '\U{800}' then 2 else if c < '\U{10000}' then 3 else 4
  }

  /** A character takes as many bytes as its code point needs: 7, 11 or 16 bits in one, two or three of them. */
  lemma CharBytesByCodePoint(c: char)
    ensures CharBytes(c) == 1 <==> c as int < 128
    ensures CharBytes(c) == 2 <==> 128 <= c as int < 2048
    ensures CharBytes(c) == 3 <==> 2048 <= c as int < 65536
  {
  }

  /** The length of a text in UTF-8 bytes. */
  function ByteLength(s: string): nat {
    if s == "" then 0 else CharBytes(s[0]) + ByteLength(s[1..])
  }

  lemma {:induction false} ByteLengthConcat(a: string, b: string)
    ensures ByteLength(a + b) == ByteLength(a) + ByteLength(b)
  {
    if a == "" {
      assert a + b == b;
    } else {
      assert (a + b)[1..] == a[1..] + b;
      ByteLengthConcat(a[1..], b);
    }
  }

  predicate IsControl(c: char) {
    c < ' ' || '\U{7F}' <= c <= '\U{9F}'
  }

  predicate IsXmlChar(c: char) {
    || c == '\t' || c == '\n' || c == '\r'
    || ' ' <= c <= '\U{D7FF}' || '\U{E000}' <= c <= '\U{FFFD}' || '\U{10000}' <= c
  }

  predicate IsLower(c: char) { 'a' <= c <= 'z' }

  predicate IsUpper(c: char) { 'A' <= c <= 'Z' }

  predicate IsAlphanumeric(c: char) { IsLower(c) || IsUpper(c) || IsDigit(c) }

  function LowerChar(c: char): char {
    if IsUpper(c) then c - 'A' + 'a' else c
  }

  function Lowercase(s: string): (r: string)
    ensures |r| == |s| && forall i | 0 <= i < |s| :: r[i] == LowerChar(s[i])
  {
    seq(|s|, i requires 0 <= i < |s| => LowerChar(s[i]))
  }

  // ---------------------------------------------------------------- tokens and kinds

  datatype DocumentKind = Proforma | Invoice | Prepayment | Final

  function KindToken(kind: DocumentKind): string {
    match kind
    case Proforma => "proforma"
    case Invoice => "invoice"
    case Prepayment => "prepayment"
    case Final => "final"
  }

  const CORRECTIVE := "corrective"
  const STORNO := "storno"
  const BY_NUMBER := "by-number"
  const CHECK_ACCOUNT := "check-account"

  /** `ExternalId::TOKENS`. */
  const TOKENS: seq<string> :=
    ["proforma", "invoice", "prepayment", "final", CORRECTIVE, STORNO, BY_NUMBER, CHECK_ACCOUNT]

  /** `ExternalId::is_token`: a token in any letter case. */
  predicate IsToken(s: string) {
    Lowercase(s) in TOKENS
  }

  // ---------------------------------------------------------------- validation

  datatype SegmentError = Empty | TooLong(bytes: nat) | InvalidStart | InvalidChar | ControlChar
    | Whitespace | HasSeparator | NotNfc | InvalidXmlText | Reserved

  predicate NamespaceChar(c: char) {
    IsLower(c) || IsDigit(c) || c == '-'
  }

  /** `Namespace::validate`. */
  function ParseNamespace(s: string): (r: Result<string, SegmentError>)
    ensures r.Ok? <==> ValidNamespace(s)
    ensures r.Ok? ==> r.value == s
  {
    if s == "" then Err(Empty)
    else if ByteLength(s) > NAMESPACE_MAX then Err(TooLong(ByteLength(s)))
    else if exists c | c in s :: !NamespaceChar(c) then Err(InvalidChar)
    else Ok(s)
  }

  predicate ValidNamespace(s: string) {
    s != "" && ByteLength(s) <= NAMESPACE_MAX && forall c | c in s :: NamespaceChar(c)
  }

  /** `OrderKey::parse`; whether a text is in Unicode NFC is a parameter. */
  function ParseOrderKey(s: string, isNfc: string -> bool): (r: Result<string, SegmentError>)
    ensures r.Ok? <==> ValidOrder(Texts.Trim(s, Texts.IsWhitespace), isNfc)
    ensures r.Ok? ==> r.value == Texts.Trim(s, Texts.IsWhitespace)
  {
    var t := Texts.Trim(s, Texts.IsWhitespace);
    if t == "" then Err(Empty)
    else if ByteLength(t) > SEGMENT_MAX then Err(TooLong(ByteLength(t)))
    else if exists c | c in t :: IsControl(c) then Err(ControlChar)
    else if exists c | c in t :: Texts.IsWhitespace(c) then Err(Whitespace)
    else if SEPARATOR in t then Err(HasSeparator)
    else if !isNfc(t) then Err(NotNfc)
    else if exists c | c in t :: !IsXmlChar(c) then Err(InvalidXmlText)
    else Ok(t)
  }

  predicate ValidOrder(t: string, isNfc: string -> bool) {
    ValidNumber(t) && isNfc(t)
  }

  /** `InvoiceNumber::validate`. */
  function ParseInvoiceNumber(s: string): (r: Result<string, SegmentError>)
    ensures r.Ok? <==> ValidNumber(s)
    ensures r.Ok? ==> r.value == s
  {
    if s == "" then Err(Empty)
    else if ByteLength(s) > SEGMENT_MAX then Err(TooLong(ByteLength(s)))
    else if exists c | c in s :: IsControl(c) then Err(ControlChar)
    else if exists c | c in s :: Texts.IsWhitespace(c) then Err(Whitespace)
    else if SEPARATOR in s then Err(HasSeparator)
    else if exists c | c in s :: !IsXmlChar(c) then Err(InvalidXmlText)
    else Ok(s)
  }

  predicate ValidNumber(s: string) {
    && s != "" && ByteLength(s) <= SEGMENT_MAX && SEPARATOR !in s
    && forall c | c in s :: !IsControl(c) && !Texts.IsWhitespace(c) && IsXmlChar(c)
  }

  predicate CorrectionChar(c: char) {
    IsAlphanumeric(c) || c == '.' || c == '_' || c == '-'
  }

  /** `CorrectionId::validate`. */
  function ParseCorrectionId(s: string): (r: Result<string, SegmentError>)
    ensures r.Ok? <==> ValidCorrection(s)
    ensures r.Ok? ==> r.value == s
  {
    if s == "" then Err(Empty)
    else if ByteLength(s) > SEGMENT_MAX then Err(TooLong(ByteLength(s)))
    else if !IsAlphanumeric(s[0]) then Err(InvalidStart)
    else if exists c | c in s[1..] :: !CorrectionChar(c) then Err(InvalidChar)
    else if IsToken(s) then Err(Reserved)
    else
      assert s == [s[0]] + s[1..];
      Ok(s)
  }

  predicate ValidCorrection(s: string) {
    && s != "" && ByteLength(s) <= SEGMENT_MAX && IsAlphanumeric(s[0])
    && (forall c | c in s :: CorrectionChar(c))
    && !IsToken(s)
  }

  // ---------------------------------------------------------------- external ids

  /** What an external id names. */
  datatype ExternalId =
    | ForKind(namespace: string, order: string, kind: DocumentKind)
    | ForCorrective(namespace: string, order: string, correction: string)
    | ForStorno(namespace: string, order: string, number: string)
    | ForUnmanagedStorno(namespace: string, number: string)
    | ForProbe(namespace: string)

  predicate Valid(id: ExternalId, isNfc: string -> bool) {
    && ValidNamespace(id.namespace)
    && (id.ForKind? || id.ForCorrective? || id.ForStorno? ==> ValidOrder(id.order, isNfc))
    && (id.ForCorrective? ==> ValidCorrection(id.correction))
    && (id.ForStorno? || id.ForUnmanagedStorno? ==> ValidNumber(id.number))
  }

  /** The segments of an id, in the order they are written. */
  function Segments(id: ExternalId): (segments: seq<string>)
    ensures segments != [] && segments[0] == id.namespace
  {
    match id
    case ForKind(ns, order, kind) => [ns, order, KindToken(kind)]
    case ForCorrective(ns, order, correction) => [ns, order, CORRECTIVE, correction]
    case ForStorno(ns, order, number) => [ns, order, STORNO, number]
    case ForUnmanagedStorno(ns, number) => [ns, BY_NUMBER, number, STORNO]
    case ForProbe(ns) => [ns, CHECK_ACCOUNT]
  }

  function Join(segments: seq<string>): string
    requires segments != []
  {
    if |segments| == 1 then segments[0] else segments[0] + [SEPARATOR] + Join(segments[1..])
  }

  /** The text of an id: `ExternalId::for_*`. */
  function Compose(id: ExternalId): string {
    Join(Segments(id))
  }

  function Split(s: string): (segments: seq<string>)
    ensures segments != []
  {
    if s == "" then [""]
    else
      var others := Split(s[1..]);
      if s[0] == SEPARATOR then [""] + others else [[s[0]] + others[0]] + others[1..]
  }

  /** `ExternalId::namespace`. */
  function NamespaceOf(s: string): string {
    Split(s)[0]
  }

  lemma {:induction false} SplitFirst(first: string, tail: string)
    requires SEPARATOR !in first && (tail == "" || tail[0] == SEPARATOR)
    ensures Split(first + tail) == [first] + (if tail == "" then [] else Split(tail[1..]))
  {
    if first == "" {
      assert first + tail == tail;
    } else {
      assert (first + tail)[1..] == first[1..] + tail;
      SplitFirst(first[1..], tail);
      assert first == [first[0]] + first[1..];
    }
  }

  /** Segments free of the separator are read back from their composition. */
  lemma {:induction false} SplitJoin(segments: seq<string>)
    requires segments != [] && forall s | s in segments :: SEPARATOR !in s
    ensures Split(Join(segments)) == segments
  {
    if |segments| == 1 {
      SplitFirst(segments[0], "");
      assert segments[0] + "" == segments[0];
    } else {
      var tail := [SEPARATOR] + Join(segments[1..]);
      SplitJoin(segments[1..]);
      SplitFirst(segments[0], tail);
      assert segments[0] + [SEPARATOR] + Join(segments[1..]) == segments[0] + tail;
      assert tail[1..] == Join(segments[1..]);
      assert segments == [segments[0]] + segments[1..];
    }
  }

  lemma SegmentsAreSeparatorFree(id: ExternalId, isNfc: string -> bool)
    requires Valid(id, isNfc)
    ensures forall s | s in Segments(id) :: SEPARATOR !in s
  {
    hide Texts.IsWhitespace, ByteLength, IsToken;
  }

  /** The one accepted alias: order `by-number` and an unmanaged document, both reversing `storno`. */
  predicate Alias(managed: ExternalId, unmanaged: ExternalId) {
    && managed.ForStorno? && unmanaged.ForUnmanagedStorno?
    && managed.namespace == unmanaged.namespace
    && managed.order == BY_NUMBER && managed.number == STORNO && unmanaged.number == STORNO
  }

  /** Two ids are written alike exactly when they are the same id, or the accepted alias. */
  lemma ComposeInjective(x: ExternalId, y: ExternalId, isNfc: string -> bool)
    requires Valid(x, isNfc) && Valid(y, isNfc)
    ensures Compose(x) == Compose(y) <==> x == y || Alias(x, y) || Alias(y, x)
  {
    SegmentsAreSeparatorFree(x, isNfc);
    SegmentsAreSeparatorFree(y, isNfc);
    SplitJoin(Segments(x));
    SplitJoin(Segments(y));
    SameSegments(x, y);
  }

  lemma SameSegments(x: ExternalId, y: ExternalId)
    requires x.ForCorrective? ==> !IsToken(x.correction)
    requires y.ForCorrective? ==> !IsToken(y.correction)
    ensures Segments(x) == Segments(y) <==> x == y || Alias(x, y) || Alias(y, x)
  {
    StornoIsToken();
    hide IsToken;
    var a, b := Segments(x), Segments(y);
    assert |a| == |b| && |a| >= 3 ==> (a == b ==> a[1] == b[1] && a[2] == b[2]);
    assert |a| == |b| == 4 ==> (a == b ==> a[3] == b[3]);
  }

  lemma StornoIsToken()
    ensures IsToken(STORNO)
  {
    assert Lowercase(STORNO) == STORNO;
    assert TOKENS[5] == STORNO;
  }

  /** A corrective never meets an unmanaged storno because `storno` is no correction id. */
  lemma ReservedTokensAreNeeded(namespace: string)
    ensures Compose(ForCorrective(namespace, BY_NUMBER, STORNO)) == Compose(ForUnmanagedStorno(namespace, CORRECTIVE))
    ensures !ValidCorrection(STORNO)
  {
    StornoIsToken();
  }

  /** The namespace reads back from every id. */
  lemma NamespaceReadsBack(id: ExternalId, isNfc: string -> bool)
    requires Valid(id, isNfc)
    ensures NamespaceOf(Compose(id)) == id.namespace
  {
    SegmentsAreSeparatorFree(id, isNfc);
    SplitJoin(Segments(id));
  }

  lemma JoinStep(first: string, others: seq<string>)
    requires others != []
    ensures ByteLength(Join([first] + others)) == ByteLength(first) + 1 + ByteLength(Join(others))
  {
    assert ([first] + others)[1..] == others;
    ByteLengthConcat(first + [SEPARATOR], Join(others));
    ByteLengthConcat(first, [SEPARATOR]);
    assert ByteLength([SEPARATOR]) == 1 by {
      assert [SEPARATOR][1..] == "";
    }
  }

  lemma JoinedLength(a: string, b: string, c: string, d: string)
    ensures ByteLength(Join([a, b])) == ByteLength(a) + ByteLength(b) + 1
    ensures ByteLength(Join([a, b, c])) == ByteLength(a) + ByteLength(b) + ByteLength(c) + 2
    ensures ByteLength(Join([a, b, c, d])) == ByteLength(a) + ByteLength(b) + ByteLength(c) + ByteLength(d) + 3
  {
    hide ByteLength;
    JoinStep(a, [b]);
    JoinStep(b, [c]);
    JoinStep(c, [d]);
    JoinStep(a, [b, c]);
    JoinStep(b, [c, d]);
    JoinStep(a, [b, c, d]);
    assert [a] + [b] == [a, b] && [b] + [c] == [b, c] && [c] + [d] == [c, d];
    assert [a] + [b, c] == [a, b, c] && [b] + [c, d] == [b, c, d] && [a] + [b, c, d] == [a, b, c, d];
  }

  lemma {:induction false} AsciiLength(s: string)
    requires forall i | 0 <= i < |s| :: s[i] < '\U{80}'
    ensures ByteLength(s) == |s|
  {
    if s == "" {
    } else {
      AsciiLength(s[1..]);
    }
  }

  lemma TokenLengths(kind: DocumentKind)
    ensures ByteLength(KindToken(kind)) <= 10 && ByteLength(CORRECTIVE) == 10 && ByteLength(STORNO) == 6
    ensures ByteLength(BY_NUMBER) == 9 && ByteLength(CHECK_ACCOUNT) == 13
  {
    hide ByteLength;
    AsciiLength(KindToken(kind));
    AsciiLength(CORRECTIVE);
    AsciiLength(STORNO);
    AsciiLength(BY_NUMBER);
    AsciiLength(CHECK_ACCOUNT);
  }

  lemma SegmentBounds(id: ExternalId, isNfc: string -> bool)
    requires Valid(id, isNfc)
    ensures ByteLength(id.namespace) <= NAMESPACE_MAX
    ensures id.ForKind? || id.ForCorrective? || id.ForStorno? ==> ByteLength(id.order) <= SEGMENT_MAX
    ensures id.ForCorrective? ==> ByteLength(id.correction) <= SEGMENT_MAX
    ensures id.ForStorno? || id.ForUnmanagedStorno? ==> ByteLength(id.number) <= SEGMENT_MAX
  {
    hide Texts.IsWhitespace, IsToken, ByteLength, CorrectionChar, NamespaceChar, IsXmlChar, IsControl;
  }

  /** Every id fits the length the vendor was seen to accept. */
  lemma ComposedLength(id: ExternalId, isNfc: string -> bool)
    requires Valid(id, isNfc)
    ensures ByteLength(Compose(id)) <= EXTERNAL_ID_MAX
  {
    TokenLengths(if id.ForKind? then id.kind else Proforma);
    SegmentBounds(id, isNfc);
    hide Valid, ByteLength, Join, KindToken;
    match id
    case ForKind(ns, order, kind) => JoinedLength(ns, order, KindToken(kind), "");
    case ForCorrective(ns, order, correction) => JoinedLength(ns, order, CORRECTIVE, correction);
    case ForStorno(ns, order, number) => JoinedLength(ns, order, STORNO, number);
    case ForUnmanagedStorno(ns, number) => JoinedLength(ns, BY_NUMBER, number, STORNO);
    case ForProbe(ns) => JoinedLength(ns, CHECK_ACCOUNT, "", "");
  }

  // ---------------------------------------------------------------- parsed segments

  /** What was parsed parses to itself. */
  lemma ParsingIsStable(s: string, isNfc: string -> bool)
    ensures ParseNamespace(s).Ok? ==> ParseNamespace(ParseNamespace(s).value) == ParseNamespace(s)
    ensures ParseOrderKey(s, isNfc).Ok? ==>
              ParseOrderKey(ParseOrderKey(s, isNfc).value, isNfc) == ParseOrderKey(s, isNfc)
    ensures ParseCorrectionId(s).Ok? ==> ParseCorrectionId(ParseCorrectionId(s).value) == ParseCorrectionId(s)
    ensures ParseInvoiceNumber(s).Ok? ==> ParseInvoiceNumber(ParseInvoiceNumber(s).value) == ParseInvoiceNumber(s)
  {
    hide ParseNamespace, ParseOrderKey, ParseCorrectionId, ParseInvoiceNumber, Texts.Trim;
    if ParseOrderKey(s, isNfc).Ok? {
      var order := ParseOrderKey(s, isNfc).value;
      Texts.TrimKeeps(order, Texts.IsWhitespace);
      assert ValidOrder(Texts.Trim(order, Texts.IsWhitespace), isNfc);
    }
  }

  /** Ids composed of parsed segments are valid, whatever texts the segments were parsed from. */
  lemma ParsedSegmentsMakeValidIds(namespace: string, order: string, kind: DocumentKind, correction: string,
                                   number: string, isNfc: string -> bool)
    requires ParseNamespace(namespace).Ok? && ParseOrderKey(order, isNfc).Ok?
    requires ParseCorrectionId(correction).Ok? && ParseInvoiceNumber(number).Ok?
    ensures var ns, o := ParseNamespace(namespace).value, ParseOrderKey(order, isNfc).value;
            var c, n := ParseCorrectionId(correction).value, ParseInvoiceNumber(number).value;
            && Valid(ForKind(ns, o, kind), isNfc) && Valid(ForCorrective(ns, o, c), isNfc)
            && Valid(ForStorno(ns, o, n), isNfc) && Valid(ForUnmanagedStorno(ns, n), isNfc)
            && Valid(ForProbe(ns), isNfc)
  {
    hide ParseNamespace, ParseOrderKey, ParseCorrectionId, ParseInvoiceNumber;
  }

  // ---------------------------------------------------------------- the written texts

  /** The text of the four kinds of an order. */
  lemma WrittenKinds(ns: string, order: string)
    ensures Compose(ForKind(ns, order, Proforma)) == ns + ":" + order + ":" + "proforma"
    ensures Compose(ForKind(ns, order, Invoice)) == ns + ":" + order + ":" + "invoice"
    ensures Compose(ForKind(ns, order, Prepayment)) == ns + ":" + order + ":" + "prepayment"
    ensures Compose(ForKind(ns, order, Final)) == ns + ":" + order + ":" + "final"
  {
    JoinThree(ns, order, "proforma");
    JoinThree(ns, order, "invoice");
    JoinThree(ns, order, "prepayment");
    JoinThree(ns, order, "final");
    hide Join;
  }

  /** The text of the other four shapes. */
  lemma WrittenShapes(ns: string, order: string, id: string)
    ensures Compose(ForCorrective(ns, order, id)) == ns + ":" + order + ":" + "corrective" + ":" + id
    ensures Compose(ForStorno(ns, order, id)) == ns + ":" + order + ":" + "storno" + ":" + id
    ensures Compose(ForUnmanagedStorno(ns, id)) == ns + ":" + "by-number" + ":" + id + ":" + "storno"
    ensures Compose(ForProbe(ns)) == ns + ":" + "check-account"
  {
    JoinTwo(ns, "check-account");
    JoinFour(ns, order, "corrective", id);
    JoinFour(ns, order, "storno", id);
    JoinFour(ns, "by-number", id, "storno");
    hide Join;
  }

  lemma JoinTwo(a: string, b: string)
    ensures Join([a, b]) == a + ":" + b
  {
    assert [a, b][1..] == [b];
  }

  lemma JoinThree(a: string, b: string, c: string)
    ensures Join([a, b, c]) == a + ":" + b + ":" + c
  {
    JoinTwo(b, c);
    assert [a, b, c][1..] == [b, c];
  }

  lemma JoinFour(a: string, b: string, c: string, d: string)
    ensures Join([a, b, c, d]) == a + ":" + b + ":" + c + ":" + d
  {
    JoinThree(b, c, d);
    assert [a, b, c, d][1..] == [b, c, d];
  }

  // ---------------------------------------------------------------- refusals and reserved words

  predicate Has(s: string, f: char -> bool) {
    exists c | c in s :: f(c)
  }

  /** A namespace is refused for the first rule it breaks. */
  lemma NamespaceRefusals(s: string)
    ensures var r := ParseNamespace(s);
            && (r == Err(Empty) <==> s == "")
            && (r == Err(TooLong(ByteLength(s))) <==> s != "" && ByteLength(s) > 16)
            && (r == Err(InvalidChar) <==>
                  && s != "" && ByteLength(s) <= 16
                  && Has(s, c => !('a' <= c <= 'z' || '0' <= c <= '9' || c == '-')))
  {
  }

  /** What an order key and an invoice number are refused for, rule after rule. */
  function Refusal(t: string, isNfc: string -> bool): Option<SegmentError> {
    if t == "" then Some(Empty)
    else if ByteLength(t) > 40 then Some(TooLong(ByteLength(t)))
    else if Has(t, c => c < ' ' || '\U{7F}' <= c <= '\U{9F}') then Some(ControlChar)
    else if Has(t, Texts.IsWhitespace) then Some(Whitespace)
    else if ':' in t then Some(HasSeparator)
    else if !isNfc(t) then Some(NotNfc)
    else if Has(t, c => '\U{FFFE}' <= c <= '\U{FFFF}') then Some(InvalidXmlText)
    else None
  }

  /** An order key is trimmed and then refused for the first rule it breaks; an invoice number as it stands. */
  lemma SegmentRefusals(s: string, isNfc: string -> bool)
    ensures var t := Texts.Trim(s, Texts.IsWhitespace);
            ParseOrderKey(s, isNfc) == match Refusal(t, isNfc) case Some(e) => Err(e) case None => Ok(t)
    ensures ParseInvoiceNumber(s) == match Refusal(s, _ => true) case Some(e) => Err(e) case None => Ok(s)
  {
  }

  /** A correction id is refused for the first rule it breaks. */
  lemma CorrectionRefusals(s: string)
    ensures var r := ParseCorrectionId(s);
            && (r == Err(Empty) <==> s == "")
            && (r == Err(TooLong(ByteLength(s))) <==> s != "" && ByteLength(s) > 40)
            && (s != "" && ByteLength(s) <= 40 ==>
                  && (r == Err(InvalidStart) <==> !IsAlphanumeric(s[0]))
                  && (r == Err(InvalidChar) <==>
                        && IsAlphanumeric(s[0])
                        && Has(s[1..], c => !(IsAlphanumeric(c) || c == '.' || c == '_' || c == '-')))
                  && (r == Err(Reserved) <==>
                        IsAlphanumeric(s[0]) && IsToken(s)
                        && !Has(s[1..], c => !(IsAlphanumeric(c) || c == '.' || c == '_' || c == '-'))))
  {
    hide IsToken;
  }

  /** The same word up to the case of its letters: capitals stand 32 code points before theirs. */
  predicate SameWord(s: string, word: string) {
    && |s| == |word|
    && forall i | 0 <= i < |s| :: s[i] == word[i] || ('A' <= s[i] <= 'Z' && word[i] as int == s[i] as int + 32)
  }

  /** Every word that ids write between their segments is reserved, in any letter case. */
  lemma WrittenWordsAreReserved(s: string, kind: DocumentKind, word: string)
    requires word == KindToken(kind) || word == "corrective" || word == "storno" || word == "by-number"
             || word == "check-account"
    requires SameWord(s, word)
    ensures IsToken(s) && ParseCorrectionId(s).Err?
  {
    assert forall i | 0 <= i < |word| :: !IsUpper(word[i]);
    assert forall i | 0 <= i < |s| :: LowerChar(s[i]) == word[i];
    assert Lowercase(s) == word;
    assert TOKENS[0] == "proforma" && TOKENS[1] == "invoice" && TOKENS[2] == "prepayment" && TOKENS[3] == "final";
    assert TOKENS[4] == "corrective" && TOKENS[5] == "storno" && TOKENS[6] == "by-number";
    assert TOKENS[7] == "check-account";
  }
}
