/**
 A reader of multipart bodies after section 5.1.1 of RFC 2046: it cuts at every CRLF, two dashes and
 the boundary, and each part at its first blank line. What the writer wrote, it reads back.
 */
module MultipartDecoder {
  import opened Wrappers
  import opened Multipart

  /** The first place at or after `from` where `needle` stands, or nothing. */
  function Find(needle: Bytes, haystack: Bytes, from: nat): (r: Option<nat>)
    ensures r.Some? ==> from <= r.value && MatchAt(needle, haystack, r.value)
    ensures r.Some? ==> forall i | from <= i < r.value :: !MatchAt(needle, haystack, i)
    ensures r.None? ==> forall i | from <= i :: !MatchAt(needle, haystack, i)
    decreases |haystack| - from
  {
    if from + |needle| > |haystack| then None
    else if MatchAt(needle, haystack, from) then Some(from)
    else Find(needle, haystack, from + 1)
  }

  /** A part as read: its header block and its content. */
  datatype ReadPart = ReadPart(headers: Bytes, content: Bytes)

  /** Reads from a delimiter on; nothing when the body is not well delimited. */
  function DecodeFrom(boundary: Bytes, s: Bytes): Option<seq<ReadPart>>
    decreases |s|, 0
  {
    var delimiter := Delimiter(boundary);
    if !(delimiter <= s) then None
    else
      var rest := s[|delimiter|..];
      if "--" <= rest then Some([])
      else if !(CRLF <= rest) then None
      else DecodePart(boundary, rest[2..])
  }

  /** Reads one part up to the next delimiter, and then the others. */
  function DecodePart(boundary: Bytes, t: Bytes): Option<seq<ReadPart>>
    decreases |t|, 1
  {
    var end := Find(Delimiter(boundary), t, 0);
    if end.None? then None
    else
      var part := t[..end.value];
      var blank := Find(BLANK_LINE, part, 0);
      var others := DecodeFrom(boundary, t[end.value..]);
      if blank.None? || others.None? then None
      else Some([ReadPart(part[..blank.value], part[blank.value + 4..])] + others.value)
  }

  /** A whole body, whose first delimiter has no CRLF before it. */
  function Decode(boundary: Bytes, body: Bytes): Option<seq<ReadPart>> {
    DecodeFrom(boundary, CRLF + body)
  }

  /** Two lines without line breaks of their own, the second a `Content-Type`. */
  predicate CleanPart(p: Part) {
    && '\r' !in p.disposition && '\r' !in p.contentType
    && p.contentType != "" && p.contentType[0] == 'C'
  }

  /** A header block has its one carriage return between its two lines, before a letter. */
  lemma HeaderBreaks(p: Part, tail: Bytes, i: nat)
    requires CleanPart(p) && i < |Headers(p)|
    requires var t := Headers(p) + tail; t[i] == '\r'
    ensures var t := Headers(p) + tail; i + 2 < |Headers(p)| && t[i + 2] == 'C'
  {
    var h, n := Headers(p), |p.disposition|;
    assert forall k | 0 <= k < n :: h[k] == p.disposition[k];
    assert forall k | n + 2 <= k < |h| :: h[k] == p.contentType[k - n - 2];
  }

  /** One differing character rules a match out. */
  lemma NoMatch(needle: Bytes, haystack: Bytes, i: nat, k: nat)
    requires k < |needle| && (i + k < |haystack| ==> haystack[i + k] != needle[k])
    ensures !MatchAt(needle, haystack, i)
  {
    if i + |needle| <= |haystack| {
      assert haystack[i..i + |needle|][k] == haystack[i + k];
    }
  }

  /** The first blank line of a part ends its headers, whatever the content holds. */
  lemma BlankLineFound(p: Part)
    requires CleanPart(p)
    ensures Find(BLANK_LINE, PartBytes(p), 0) == Some(|Headers(p)|)
  {
    var t := PartBytes(p);
    var tail := BLANK_LINE + p.content;
    assert t == Headers(p) + tail;
    assert MatchAt(BLANK_LINE, t, |Headers(p)|);
    forall i | 0 <= i < |Headers(p)|
      ensures !MatchAt(BLANK_LINE, t, i)
    {
      if t[i] == '\r' {
        HeaderBreaks(p, tail, i);
        NoMatch(BLANK_LINE, t, i, 2);
      } else {
        NoMatch(BLANK_LINE, t, i, 0);
      }
    }
  }

  /**
   No delimiter stands before the real one: not in the headers, not in the content, and not across
   the content and the delimiter that follows it.
   */
  lemma NoEarlierDelimiter(boundary: Bytes, p: Part, tail: Bytes, i: nat)
    requires CleanPart(p) && '\r' !in boundary && !Contains(p.content, boundary)
    requires Delimiter(boundary) <= tail && i < |PartBytes(p)|
    ensures !MatchAt(Delimiter(boundary), PartBytes(p) + tail, i)
  {
    var d, t, h := Delimiter(boundary), PartBytes(p) + tail, |Headers(p)|;
    assert t == Headers(p) + (BLANK_LINE + p.content + tail);
    assert t[h..h + 4] == BLANK_LINE;
    if i < h + 2 && t[i] == '\r' {
      if i < h {
        HeaderBreaks(p, BLANK_LINE + p.content + tail, i);
      } else {
        assert t[i] == BLANK_LINE[i - h];
        assert t[h + 2] == BLANK_LINE[2];
      }
      NoMatch(d, t, i, 2);
    } else if i < h + 2 {
      NoMatch(d, t, i, 0);
    } else if i + |d| <= |PartBytes(p)| {
      NotInside(boundary, p, tail, i);
    } else {
      NotAcross(boundary, p, tail, i);
    }
  }

  lemma NotInside(boundary: Bytes, p: Part, tail: Bytes, i: nat)
    requires !Contains(p.content, boundary)
    requires |Headers(p)| + 2 <= i && i + |Delimiter(boundary)| <= |PartBytes(p)|
    ensures !MatchAt(Delimiter(boundary), PartBytes(p) + tail, i)
  {
    var d, t := Delimiter(boundary), PartBytes(p) + tail;
    var j := i - |Headers(p)|;
    if j >= 0 {
      assert d[4..] == boundary;
      assert t[i..i + |d|][4..] == t[i + 4..i + |d|];
      assert t[i + 4..i + |d|] == p.content[j..j + |boundary|];
      assert !MatchAt(boundary, p.content, j);
    }
  }

  lemma NotAcross(boundary: Bytes, p: Part, tail: Bytes, i: nat)
    requires '\r' !in boundary && Delimiter(boundary) <= tail
    requires i < |PartBytes(p)| < i + |Delimiter(boundary)|
    ensures !MatchAt(Delimiter(boundary), PartBytes(p) + tail, i)
  {
    var d, t := Delimiter(boundary), PartBytes(p) + tail;
    var k := |PartBytes(p)| - i;
    assert t[i + k] == tail[0] == d[0];
    assert k < 4 || d[k] == boundary[k - 4];
    NoMatch(d, t, i, k);
  }

  lemma DelimiterFound(boundary: Bytes, p: Part, tail: Bytes)
    requires CleanPart(p) && '\r' !in boundary && !Contains(p.content, boundary)
    requires Delimiter(boundary) <= tail
    ensures Find(Delimiter(boundary), PartBytes(p) + tail, 0) == Some(|PartBytes(p)|)
  {
    var t := PartBytes(p) + tail;
    assert t[|PartBytes(p)|..] == tail;
    assert MatchAt(Delimiter(boundary), t, |PartBytes(p)|);
    forall i | 0 <= i < |PartBytes(p)|
      ensures !MatchAt(Delimiter(boundary), t, i)
    {
      NoEarlierDelimiter(boundary, p, tail, i);
    }
  }

  function ReadBack(parts: seq<Part>): (r: seq<ReadPart>)
    ensures |r| == |parts|
    ensures forall i | 0 <= i < |parts| :: r[i] == ReadPart(Headers(parts[i]), parts[i].content)
  {
    seq(|parts|, i requires 0 <= i < |parts| => ReadPart(Headers(parts[i]), parts[i].content))
  }

  lemma DelimiterLeads(boundary: Bytes, parts: seq<Part>)
    ensures Delimiter(boundary) <= Delimited(boundary, parts)
  {
  }

  lemma RegroupDelimited(boundary: Bytes, p: Part, tail: Bytes)
    ensures Delimiter(boundary) + CRLF + PartBytes(p) + tail == Delimiter(boundary) + (CRLF + (PartBytes(p) + tail))
  {
    hide PartBytes, Delimiter;
  }

  lemma SplitPart(p: Part)
    ensures |Headers(p)| + 4 <= |PartBytes(p)|
    ensures PartBytes(p)[..|Headers(p)|] == Headers(p) && PartBytes(p)[|Headers(p)| + 4..] == p.content
  {
    hide Headers;
  }

  /** One part is read and the rest left to the next delimiter. */
  lemma DecodeStep(boundary: Bytes, p: Part, tail: Bytes)
    requires CleanPart(p) && '\r' !in boundary && !Contains(p.content, boundary)
    requires Delimiter(boundary) <= tail && DecodeFrom(boundary, tail).Some?
    ensures DecodeFrom(boundary, Delimiter(boundary) + (CRLF + (PartBytes(p) + tail)))
            == Some([ReadPart(Headers(p), p.content)] + DecodeFrom(boundary, tail).value)
  {
    var d, t := Delimiter(boundary), PartBytes(p) + tail;
    DelimiterFound(boundary, p, tail);
    BlankLineFound(p);
    SplitPart(p);
    hide PartBytes, Contains, Headers, CleanPart, Delimiter, Find, MatchAt;
    DecodeCut(boundary, t);
    assert t[..|PartBytes(p)|] == PartBytes(p);
    assert t[|PartBytes(p)|..] == tail;
  }

  /** What is read after a delimiter that opens a part. */
  lemma DecodeCut(boundary: Bytes, t: Bytes)
    ensures DecodeFrom(boundary, Delimiter(boundary) + (CRLF + t)) == DecodePart(boundary, t)
  {
    hide Delimiter, Find, MatchAt;
    var d := Delimiter(boundary);
    var s := d + (CRLF + t);
    assert s[|d|..] == CRLF + t;
    assert (CRLF + t)[0] == '\r';
    assert (CRLF + t)[2..] == t;
  }

  lemma {:induction false} DecodeDelimited(boundary: Bytes, parts: seq<Part>)
    requires '\r' !in boundary
    requires forall p | p in parts :: CleanPart(p) && !Contains(p.content, boundary)
    ensures DecodeFrom(boundary, Delimited(boundary, parts)) == Some(ReadBack(parts))
  {
    hide Find, MatchAt, DecodePart, PartBytes, Contains, Headers, CleanPart, Delimiter;
    if parts == [] {
      assert Delimited(boundary, parts)[|Delimiter(boundary)|..] == "--\r\n";
    } else {
      hide DecodeFrom;
      var p, others := parts[0], parts[1..];
      var tail := Delimited(boundary, others);
      DecodeDelimited(boundary, others);
      DelimiterLeads(boundary, others);
      RegroupDelimited(boundary, p, tail);
      DecodeStep(boundary, p, tail);
      assert ReadBack(parts) == [ReadPart(Headers(p), p.content)] + ReadBack(others);
    }
  }

  lemma CandidateHasNoReturn(n: nat)
    ensures '\r' !in Candidate(n)
  {
  }

  lemma CleanDisposition(name: Bytes, filename: Bytes)
    requires '\r' !in name && '\r' !in filename
    ensures '\r' !in Disposition(name, filename)
  {
  }

  lemma CleanXmlPart(action: Bytes, xml: Bytes)
    requires '\r' !in action
    ensures CleanPart(XmlPart(action, xml))
  {
    hide Disposition;
    CleanDisposition(action, action);
  }

  lemma CleanFilePart(file: MultipartFile)
    ensures CleanPart(FilePart(file))
  {
    hide Disposition, DispositionValue;
    CleanDisposition(DispositionValue(file.name), DispositionValue(file.filename));
    assert '\r' !in Replace(file.contentType, "\r\n", "");
  }

  lemma WrittenPartsAreClean(action: Bytes, xml: Bytes, files: seq<MultipartFile>, p: Part)
    requires '\r' !in action && p in Parts(action, xml, files)
    ensures CleanPart(p)
  {
    hide XmlPart, FilePart, CleanPart;
    CleanXmlPart(action, xml);
    var parts := Parts(action, xml, files);
    var i :| 0 <= i < |parts| && parts[i] == p;
    if i > 0 {
      CleanFilePart(files[i - 1]);
    }
  }

  /**
   The round trip: for every document and every list of files, a body delimited by a boundary the
   search accepts reads back as exactly the parts that were written, in order.
   */
  lemma MultipartRoundTrip(action: Bytes, xml: Bytes, files: seq<MultipartFile>, n: nat)
    requires '\r' !in action && !Used(Payloads(xml, files), Candidate(n))
    ensures var parts := Parts(action, xml, files);
            Decode(Candidate(n), Body(Candidate(n), parts)) == Some(ReadBack(parts))
  {
    var boundary, parts := Candidate(n), Parts(action, xml, files);
    CandidateHasNoReturn(n);
    BodyAfterBreak(boundary, parts);
    hide CleanPart, Contains, Candidate, Body, Delimited, Parts, Payloads;
    forall p | p in parts
      ensures CleanPart(p) && !Contains(p.content, boundary)
    {
      WrittenPartsAreClean(action, xml, files, p);
      PartContent(action, xml, files, p);
    }
    DecodeDelimited(boundary, parts);
  }

  lemma BodyAfterBreak(boundary: Bytes, parts: seq<Part>)
    ensures CRLF + Body(boundary, parts) == Delimited(boundary, parts)
  {
    DelimiterLeads(boundary, parts);
    assert CRLF <= Delimiter(boundary);
    hide Delimited, Delimiter;
  }

  lemma PartContent(action: Bytes, xml: Bytes, files: seq<MultipartFile>, p: Part)
    requires p in Parts(action, xml, files)
    ensures p.content in Payloads(xml, files)
  {
    hide FilePart, Disposition;
    var parts, payloads := Parts(action, xml, files), Payloads(xml, files);
    var i :| 0 <= i < |parts| && parts[i] == p;
    ContentOfPart(action, xml, files, i);
    assert payloads[i] in payloads;
  }

  lemma ContentOfPart(action: Bytes, xml: Bytes, files: seq<MultipartFile>, i: nat)
    requires i < |Parts(action, xml, files)|
    ensures i < |Payloads(xml, files)| && Parts(action, xml, files)[i].content == Payloads(xml, files)[i]
  {
    hide Disposition, DispositionValue, Replace, Payloads;
    assert i > 0 ==> Parts(action, xml, files)[i] == FilePart(files[i - 1]);
    assert i > 0 ==> Payloads(xml, files)[1 + (i - 1)] == files[i - 1].content;
  }

  /** In particular the document and every file come back byte for byte, in order. */
  lemma ContentsRecovered(action: Bytes, xml: Bytes, files: seq<MultipartFile>, n: nat)
    requires '\r' !in action && !Used(Payloads(xml, files), Candidate(n))
    ensures var read := Decode(Candidate(n), Body(Candidate(n), Parts(action, xml, files)));
            && read.Some? && |read.value| == 1 + |files|
            && read.value[0].content == xml
            && forall i | 0 <= i < |files| :: read.value[1 + i].content == files[i].content
  {
    MultipartRoundTrip(action, xml, files, n);
  }

  // ---------------------------------------------------------------- reading a header block

  const NAME_START: Bytes := "Content-Disposition: form-data; name=\""
  const FILENAME_START: Bytes := "\"; filename=\""

  /** What a header block says of its part. */
  datatype Header = Header(name: Bytes, filename: Bytes, contentType: Bytes)

  /** A value up to the quote that closes it, and what follows the quote. */
  function ReadQuoted(s: Bytes): Option<(Bytes, Bytes)> {
    match Find("\"", s, 0)
    case None => None
    case Some(q) => Some((s[..q], s[q..]))
  }

  /** Reads the two header lines of a part: the first quoted values are its name and its filename. */
  function ReadHeader(headers: Bytes): Option<Header> {
    if !(NAME_START <= headers) then None
    else
      match ReadQuoted(headers[|NAME_START|..])
      case None => None
      case Some((name, rest)) =>
        if !(FILENAME_START <= rest) then None
        else
          match ReadQuoted(rest[|FILENAME_START|..])
          case None => None
          case Some((filename, line)) =>
            if !("\"\r\n" <= line) then None else Some(Header(name, filename, line[3..]))
  }

  lemma QuotedReadsBack(value: Bytes, rest: Bytes)
    requires '"' !in value && rest != "" && rest[0] == '"'
    ensures ReadQuoted(value + rest) == Some((value, rest))
  {
    var s := value + rest;
    assert s[|value|..|value| + 1] == "\"";
    assert MatchAt("\"", s, |value|);
    forall i | 0 <= i < |value|
      ensures !MatchAt("\"", s, i)
    {
      assert s[i..i + 1][0] == value[i];
    }
  }

  /** Values without quotes, as the writer leaves them, are read back. */
  lemma HeaderReadsBack(name: Bytes, filename: Bytes, contentType: Bytes)
    requires '"' !in name && '"' !in filename
    ensures ReadHeader(Disposition(name, filename) + CRLF + contentType) == Some(Header(name, filename, contentType))
  {
    hide ReadQuoted;
    var line := "\"\r\n" + contentType;
    var second := FILENAME_START + (filename + line);
    var h := Disposition(name, filename) + CRLF + contentType;
    HeaderPieces(name, filename, contentType);
    assert h[|NAME_START|..] == name + second;
    QuotedReadsBack(name, second);
    assert second[|FILENAME_START|..] == filename + line;
    QuotedReadsBack(filename, line);
    assert line[3..] == contentType;
  }

  lemma HeaderPieces(name: Bytes, filename: Bytes, contentType: Bytes)
    ensures Disposition(name, filename) + CRLF + contentType
            == NAME_START + (name + (FILENAME_START + (filename + ("\"\r\n" + contentType))))
  {
    assert "\"" + CRLF == "\"\r\n";
  }

  /**
   End to end: what was written reads back whole. Every part comes back in order with its bytes, its
   content type and the name and filename the header carries for it.
   */
  lemma WrittenBodyReadsBack(action: Bytes, xml: Bytes, files: seq<MultipartFile>, boundary: Bytes, body: Bytes)
    requires Written(action, xml, files, boundary, body) && '\r' !in action && '"' !in action
    ensures var read := Decode(boundary, body);
            && read.Some? && |read.value| == 1 + |files|
            && read.value[0].content == xml
            && ReadHeader(read.value[0].headers) == Some(Header(action, action, "Content-Type: text/xml"))
            && forall i | 0 <= i < |files| ::
                 && read.value[1 + i].content == files[i].content
                 && ReadHeader(read.value[1 + i].headers) == Some(WrittenHeader(files[i]))
  {
    hide Candidate, Body, Used, Decode, Payloads, ReadHeader, Headers, FilePart, XmlPart;
    var n :| boundary == Candidate(n);
    MultipartRoundTrip(action, xml, files, n);
    var parts := Parts(action, xml, files);
    XmlPartReadsBack(action, xml);
    forall i | 0 <= i < |files|
      ensures parts[1 + i].content == files[i].content
      ensures ReadHeader(Headers(parts[1 + i])) == Some(WrittenHeader(files[i]))
    {
      assert parts[1 + i] == FilePart(files[i]);
      FilePartReadsBack(files[i]);
    }
  }

  lemma XmlPartReadsBack(action: Bytes, xml: Bytes)
    requires '"' !in action
    ensures ReadHeader(Headers(XmlPart(action, xml))) == Some(Header(action, action, "Content-Type: text/xml"))
    ensures XmlPart(action, xml).content == xml
  {
    hide ReadHeader, Disposition;
    HeaderReadsBack(action, action, "Content-Type: text/xml");
  }

  lemma FilePartReadsBack(file: MultipartFile)
    ensures ReadHeader(Headers(FilePart(file))) == Some(WrittenHeader(file))
    ensures FilePart(file).content == file.content
  {
    hide ReadHeader, Disposition, DispositionValue, Replace;
    HeaderReadsBack(DispositionValue(file.name), DispositionValue(file.filename), WrittenHeader(file).contentType);
  }

  /** What the header of a file part carries. */
  function WrittenHeader(file: MultipartFile): Header {
    Header(DispositionValue(file.name), DispositionValue(file.filename),
           "Content-Type: " + Replace(file.contentType, "\r\n", ""))
  }
}
