/**
 The multipart envelope of a request (`wire.rs: multipart`, `multipart_boundary`): the writer with its
 boundary search. Texts are byte strings, one character a byte.
 */
module Multipart {
  import opened DecimalDigits
  import opened PowersOfTen

  type Bytes = string

  const CRLF: Bytes := "\r\n"
  const BLANK_LINE: Bytes := "\r\n\r\n"
  const BASE_BOUNDARY: Bytes := "----szamlazz-agent-4f7d1a2b9c3e"

  /** An uploaded file as an operation contributes it. */
  datatype MultipartFile = MultipartFile(name: Bytes, filename: Bytes, contentType: Bytes, content: Bytes)

  predicate MatchAt(needle: Bytes, haystack: Bytes, i: int) {
    0 <= i <= |haystack| - |needle| && haystack[i..i + |needle|] == needle
  }

  /** `contains_bytes`. */
  predicate Contains(haystack: Bytes, needle: Bytes) {
    exists i | 0 <= i <= |haystack| - |needle| :: MatchAt(needle, haystack, i)
  }

  ghost predicate Encloses(haystack: Bytes, before: Bytes, needle: Bytes, after: Bytes) {
    haystack == before + needle + after
  }

  /** It is contained exactly when the rest of the bytes can be put around it, at either end too. */
  lemma ContainsMeans(haystack: Bytes, needle: Bytes)
    ensures Contains(haystack, needle) <==> exists before, after :: Encloses(haystack, before, needle, after)
  {
    if Contains(haystack, needle) {
      var i :| 0 <= i <= |haystack| - |needle| && MatchAt(needle, haystack, i);
      assert Encloses(haystack, haystack[..i], needle, haystack[i + |needle|..]);
    }
    if before, after :| Encloses(haystack, before, needle, after) {
      assert haystack[|before|..|before| + |needle|] == needle;
      assert MatchAt(needle, haystack, |before|);
    }
  }

  // ---------------------------------------------------------------- header values

  /** `str::replace` of every character of `targets`. */
  function Replace(s: Bytes, targets: Bytes, substitute: Bytes): (r: Bytes)
    ensures forall c | c in r :: c in substitute || (c in s && c !in targets)
  {
    if s == [] then [] else (if s[0] in targets then substitute else [s[0]]) + Replace(s[1..], targets, substitute)
  }

  /** `disposition_value`. */
  function DispositionValue(value: Bytes): (r: Bytes)
    ensures '\r' !in r && '\n' !in r && '"' !in r && '\\' !in r
  {
    Replace(Replace(Replace(value, "\r\n", ""), "\"", "%22"), "\\", "%5C")
  }

  lemma {:induction false} ReplaceConcat(a: Bytes, b: Bytes, targets: Bytes, substitute: Bytes)
    ensures Replace(a + b, targets, substitute) == Replace(a, targets, substitute) + Replace(b, targets, substitute)
  {
    if a == [] {
      assert a + b == b;
    } else {
      assert (a + b)[1..] == a[1..] + b;
      ReplaceConcat(a[1..], b, targets, substitute);
    }
  }

  /** A header value is rewritten character by character. */
  lemma DispositionValueConcat(a: Bytes, b: Bytes)
    ensures DispositionValue(a + b) == DispositionValue(a) + DispositionValue(b)
  {
    var x, y := Replace(a, "\r\n", ""), Replace(b, "\r\n", "");
    ReplaceConcat(a, b, "\r\n", "");
    ReplaceConcat(x, y, "\"", "%22");
    ReplaceConcat(Replace(x, "\"", "%22"), Replace(y, "\"", "%22"), "\\", "%5C");
  }

  /** Line breaks vanish, a quote and a backslash are escaped, any other character stands for itself. */
  lemma DispositionValueOfCharacter(c: char)
    ensures DispositionValue([c]) ==
            if c == '\r' || c == '\n' then "" else if c == '"' then "%22" else if c == '\\' then "%5C" else [c]
  {
    ReplaceOne(c, "\r\n", "");
    ReplaceOne(c, "\"", "%22");
    ReplaceOne(c, "\\", "%5C");
    ReplaceOther("%22", "\\", "%5C");
    assert Replace("", "\"", "%22") == "" && Replace("", "\\", "%5C") == "";
    hide Replace;
  }

  lemma {:induction false} ReplaceOther(s: Bytes, targets: Bytes, substitute: Bytes)
    requires forall c | c in s :: c !in targets
    ensures Replace(s, targets, substitute) == s
  {
    if s == [] {
    } else {
      ReplaceOther(s[1..], targets, substitute);
      assert s == [s[0]] + s[1..];
    }
  }

  lemma ReplaceOne(c: char, targets: Bytes, substitute: Bytes)
    ensures Replace([c], targets, substitute) == if c in targets then substitute else [c]
  {
    assert [c][1..] == [];
  }

  /** A part as it stands in the body: two header lines, a blank line, the content. */
  datatype Part = Part(disposition: Bytes, contentType: Bytes, content: Bytes)

  function Headers(p: Part): Bytes {
    p.disposition + CRLF + p.contentType
  }

  function PartBytes(p: Part): Bytes {
    Headers(p) + BLANK_LINE + p.content
  }

  function Disposition(name: Bytes, filename: Bytes): Bytes {
    "Content-Disposition: form-data; name=\"" + name + "\"; filename=\"" + filename + "\""
  }

  function XmlPart(action: Bytes, xml: Bytes): Part {
    Part(Disposition(action, action), "Content-Type: text/xml", xml)
  }

  function FilePart(file: MultipartFile): Part {
    Part(Disposition(DispositionValue(file.name), DispositionValue(file.filename)),
         "Content-Type: " + Replace(file.contentType, "\r\n", ""),
         file.content)
  }

  function Parts(action: Bytes, xml: Bytes, files: seq<MultipartFile>): (parts: seq<Part>) {
    [XmlPart(action, xml)] + FileParts(files)
  }

  function FileParts(files: seq<MultipartFile>): (parts: seq<Part>)
    ensures |parts| == |files|
    ensures forall i | 0 <= i < |files| :: parts[i] == FilePart(files[i])
  {
    seq(|files|, i requires 0 <= i < |files| => FilePart(files[i]))
  }

  // ---------------------------------------------------------------- the body

  /** CRLF, two dashes and the boundary: the delimiter of section 5.1.1 of RFC 2046. */
  function Delimiter(boundary: Bytes): Bytes {
    "\r\n--" + boundary
  }

  /** Delimited parts followed by the closing delimiter. */
  function Delimited(boundary: Bytes, parts: seq<Part>): Bytes {
    if parts == [] then Delimiter(boundary) + "--\r\n"
    else Delimiter(boundary) + CRLF + PartBytes(parts[0]) + Delimited(boundary, parts[1..])
  }

  /** A whole body; the first delimiter stands at its very start, without its CRLF. */
  function Body(boundary: Bytes, parts: seq<Part>): Bytes {
    Delimited(boundary, parts)[2..]
  }

  function Payloads(xml: Bytes, files: seq<MultipartFile>): (payloads: seq<Bytes>)
    ensures |payloads| == 1 + |files| && payloads[0] == xml
    ensures forall i | 0 <= i < |files| :: payloads[1 + i] == files[i].content
  {
    [xml] + seq(|files|, i requires 0 <= i < |files| => files[i].content)
  }

  /** The parts written so far, before the closing delimiter. */
  function Opened(boundary: Bytes, parts: seq<Part>): Bytes {
    if parts == [] then []
    else Opened(boundary, parts[..|parts| - 1]) + Delimiter(boundary) + CRLF + PartBytes(parts[|parts| - 1])
  }

  lemma {:induction false} OpenedThenDelimited(boundary: Bytes, before: seq<Part>, after: seq<Part>)
    ensures Opened(boundary, before) + Delimited(boundary, after) == Delimited(boundary, before + after)
    decreases |before|
  {
    if before == [] {
      assert before + after == after;
    } else {
      var front, last := before[..|before| - 1], before[|before| - 1];
      assert before + after == front + ([last] + after);
      assert ([last] + after)[1..] == after;
      OpenedThenDelimited(boundary, front, [last] + after);
      var d := Delimiter(boundary) + CRLF + PartBytes(last);
      assert Opened(boundary, before) + Delimited(boundary, after)
             == Opened(boundary, front) + (d + Delimited(boundary, after));
    }
  }

  // ---------------------------------------------------------------- the boundary search

  function Candidate(n: nat): Bytes {
    if n == 0 then BASE_BOUNDARY
    else BASE_BOUNDARY + "-" + Digits(n)
  }

  predicate Used(payloads: seq<Bytes>, boundary: Bytes) {
    exists i | 0 <= i < |payloads| :: Contains(payloads[i], boundary)
  }

  function TotalSize(payloads: seq<Bytes>): nat {
    if payloads == [] then 0 else |payloads[0]| + TotalSize(payloads[1..])
  }

  lemma MatchedCharacter(needle: Bytes, haystack: Bytes, i: int, m: nat)
    requires MatchAt(needle, haystack, i) && m < |needle|
    ensures haystack[i + m] == needle[m]
  {
    assert haystack[i..i + |needle|][m] == haystack[i + m];
  }

  /** Shifted against itself the base boundary differs: its four dashes stand nowhere else. */
  lemma BaseDiffers(k: nat) returns (m: nat)
    requires 0 < k < |BASE_BOUNDARY|
    ensures k + m < |BASE_BOUNDARY| && BASE_BOUNDARY[k + m] != BASE_BOUNDARY[m]
  {
    m := if k < 4 then 3 else if BASE_BOUNDARY[k] != '-' then 0 else 1;
  }

  /** Occurrences of the base boundary never overlap, so every one takes bytes of its own. */
  lemma BaseDoesNotOverlap(payload: Bytes, i: int, k: nat)
    requires MatchAt(BASE_BOUNDARY, payload, i) && 0 < k < |BASE_BOUNDARY|
    ensures !MatchAt(BASE_BOUNDARY, payload, i + k)
  {
    if MatchAt(BASE_BOUNDARY, payload, i + k) {
      var m := BaseDiffers(k);
      MatchedCharacter(BASE_BOUNDARY, payload, i, k + m);
      MatchedCharacter(BASE_BOUNDARY, payload, i + k, m);
    }
  }

  lemma NoBaseBetween(payload: Bytes, m: nat, n: nat)
    requires MatchAt(BASE_BOUNDARY, payload, n) && n < m + |BASE_BOUNDARY|
    ensures forall i | m <= i < n :: !MatchAt(BASE_BOUNDARY, payload, i)
  {
    hide MatchAt;
    forall i | m <= i < n
      ensures !MatchAt(BASE_BOUNDARY, payload, i)
    {
      if MatchAt(BASE_BOUNDARY, payload, i) {
        BaseDoesNotOverlap(payload, i, n - i);
      }
    }
  }

  /** Where a candidate stands, the base boundary stands. */
  lemma BaseStandsThere(payload: Bytes)
    ensures forall b: Bytes, i: int | MatchAt(b, payload, i) && BASE_BOUNDARY <= b :: MatchAt(BASE_BOUNDARY, payload, i)
  {
    forall b: Bytes, i: int | MatchAt(b, payload, i) && BASE_BOUNDARY <= b
      ensures MatchAt(BASE_BOUNDARY, payload, i)
    {
      assert payload[i..i + |BASE_BOUNDARY|] == payload[i..i + |b|][..|BASE_BOUNDARY|];
    }
  }

  /** The windows of one length that start before `n` with the base boundary: at most one to 31 bytes. */
  ghost function Windows(payload: Bytes, length: nat, n: nat): (w: set<Bytes>)
    requires n + length <= |payload| + 1 && length >= |BASE_BOUNDARY|
    ensures |w| * |BASE_BOUNDARY| <= n + |BASE_BOUNDARY| - 1
    ensures forall b: Bytes, i | 0 <= i < n && |b| == length && BASE_BOUNDARY <= b && MatchAt(b, payload, i) :: b in w
  {
    BaseStandsThere(payload);
    if n == 0 then {}
    else if MatchAt(BASE_BOUNDARY, payload, n - 1) then
      var m := if n > |BASE_BOUNDARY| then n - |BASE_BOUNDARY| else 0;
      NoBaseBetween(payload, m, n - 1);
      Windows(payload, length, m) + {payload[n - 1..n - 1 + length]}
    else Windows(payload, length, n - 1)
  }

  /** All such windows of one length, over every payload. */
  ghost function AllWindows(payloads: seq<Bytes>, length: nat): (w: set<Bytes>)
    requires length >= |BASE_BOUNDARY|
    ensures |w| * |BASE_BOUNDARY| <= TotalSize(payloads)
    ensures forall b: Bytes | |b| == length && BASE_BOUNDARY <= b && Used(payloads, b) :: b in w
  {
    if payloads == [] then {}
    else
      var p := payloads[0];
      var first := if |p| < length then {} else Windows(p, length, |p| + 1 - length);
      var rest := AllWindows(payloads[1..], length);
      assert forall b: Bytes | |b| == length && BASE_BOUNDARY <= b && Used(payloads, b) :: b in first + rest by {
        forall b: Bytes | |b| == length && BASE_BOUNDARY <= b && Used(payloads, b)
          ensures b in first + rest
        {
          var i :| 0 <= i < |payloads| && Contains(payloads[i], b);
          if i > 0 {
            assert Contains(payloads[1..][i - 1], b);
          } else {
            var j :| 0 <= j <= |p| - |b| && MatchAt(b, p, j);
          }
        }
      }
      first + rest
  }

  ghost function Candidates(lo: nat, n: nat): (c: set<Bytes>) {
    if n == 0 then {} else Candidates(lo, n - 1) + {Candidate(lo + n - 1)}
  }

  lemma {:induction false} CandidatesFrom(lo: nat, n: nat)
    requires lo > 0
    ensures |Candidates(lo, n)| == n
    ensures forall b | b in Candidates(lo, n) :: exists i | lo <= i < lo + n :: b == Candidate(i)
  {
    hide Candidate;
    if n == 0 {
    } else {
      CandidatesFrom(lo, n - 1);
      var last := Candidate(lo + n - 1);
      if last in Candidates(lo, n - 1) {
        var i :| lo <= i < lo + n - 1 && last == Candidate(i);
        CandidateInjective(i, lo + n - 1);
        assert false;
      }
    }
  }

  lemma CandidateInjective(m: nat, n: nat)
    requires 0 < m && 0 < n && Candidate(m) == Candidate(n)
    ensures m == n
  {
    var prefix := BASE_BOUNDARY + "-";
    assert Candidate(m)[|prefix|..] == Digits(m);
    assert Candidate(n)[|prefix|..] == Digits(n);
  }

  lemma SubsetSize<T>(a: set<T>, b: set<T>)
    requires a <= b
    ensures |a| <= |b|
  {
    assert b == a + (b - a);
  }

  /** Among more candidates of one length than occurrences of the base boundary, one is not used. */
  lemma SomeCandidateUnused(payloads: seq<Bytes>, lo: nat, k: nat, most: nat) returns (n: nat)
    requires k > 0 && Pow10(k - 1) == lo && most == TotalSize(payloads) / |BASE_BOUNDARY| < lo
    ensures lo <= n <= lo + most && !Used(payloads, Candidate(n))
  {
    hide Used, Candidate, Candidates, AllWindows, TotalSize, Pow10;
    var length := |BASE_BOUNDARY| + 1 + k;
    var candidates := Candidates(lo, most + 1);
    var windows := AllWindows(payloads, length);
    assert |windows| <= most;
    CandidatesFrom(lo, most + 1);
    if candidates <= windows {
      SubsetSize(candidates, windows);
      assert false;
    }
    var b :| b in candidates && b !in windows;
    n :| lo <= n < lo + most + 1 && b == Candidate(n);
    CandidateOfLength(n, lo, k);
  }

  lemma CandidateOfLength(n: nat, lo: nat, k: nat)
    requires k > 0 && Pow10(k - 1) == lo <= n < 2 * lo
    ensures |Candidate(n)| == |BASE_BOUNDARY| + 1 + k && BASE_BOUNDARY <= Candidate(n)
  {
    hide Digits;
    assert Pow10(k) == 10 * lo;
    DigitsLength(n, k);
  }

  lemma PowerAbove(size: nat) returns (k: nat)
    ensures k > 0 && size < Pow10(k - 1) <= 10 * size + 1
  {
    k := 1;
    while Pow10(k - 1) <= size
      invariant k > 0
      invariant Pow10(k - 1) <= 10 * size + 1
      decreases 10 * size + 1 - Pow10(k - 1)
    {
      assert Pow10(k) == 10 * Pow10(k - 1);
      k := k + 1;
    }
  }

  /** Every payload leaves some candidate unused, and not a late one. */
  lemma UnusedCandidate(payloads: seq<Bytes>) returns (n: nat)
    ensures !Used(payloads, Candidate(n)) && n <= 11 * (TotalSize(payloads) / |BASE_BOUNDARY|) + 1
  {
    var most := TotalSize(payloads) / |BASE_BOUNDARY|;
    var k := PowerAbove(most);
    n := SomeCandidateUnused(payloads, Pow10(k - 1), k, most);
  }

  /** What a 64-bit address space holds. */
  const ADDRESS_SPACE: int := 0x1_0000_0000_0000_0000

  lemma CandidateLength(n: nat)
    requires n <= ADDRESS_SPACE
    ensures |Candidate(n)| <= 52
  {
    if n > 0 {
      assert Pow10(10) == 10000000000;
      Pow10Sum(10, 10);
      DigitsLength(n, 20);
    }
  }

  /**
   `multipart_boundary`: the first candidate that occurs in no payload. The search ends; its counter is at
   most the size of the payloads, or one, so no word that can count their bytes overflows; and for any
   payloads an address space holds the boundary stays within the 70 bytes of RFC 2046.
   */
  method MultipartBoundary(xml: Bytes, files: seq<MultipartFile>) returns (boundary: Bytes, candidate: nat)
    ensures boundary == Candidate(candidate) && !Used(Payloads(xml, files), boundary)
    ensures forall n | 0 <= n < candidate :: Used(Payloads(xml, files), Candidate(n))
    ensures candidate <= 1 || candidate <= TotalSize(Payloads(xml, files))
    ensures TotalSize(Payloads(xml, files)) <= ADDRESS_SPACE ==> |boundary| <= 70
  {
    hide Contains, Used, TotalSize, Candidate, Payloads;
    boundary, candidate := Candidate(0), 0;
    ghost var payloads := Payloads(xml, files);
    ghost var unused := UnusedCandidate(payloads);
    UsedByEither(xml, files, boundary);
    while Contains(xml, boundary) || (exists i | 0 <= i < |files| :: Contains(files[i].content, boundary))
      invariant candidate <= unused && boundary == Candidate(candidate)
      invariant Used(payloads, boundary) <==>
                Contains(xml, boundary) || exists i | 0 <= i < |files| :: Contains(files[i].content, boundary)
      invariant forall n | 0 <= n < candidate :: Used(payloads, Candidate(n))
      decreases unused - candidate
    {
      candidate := candidate + 1;
      boundary := Candidate(candidate);
      UsedByEither(xml, files, boundary);
    }
    if TotalSize(payloads) <= ADDRESS_SPACE {
      CandidateLength(candidate);
    }
  }

  lemma UsedByEither(xml: Bytes, files: seq<MultipartFile>, boundary: Bytes)
    ensures Used(Payloads(xml, files), boundary) <==>
            Contains(xml, boundary) || exists i | 0 <= i < |files| :: Contains(files[i].content, boundary)
  {
    hide Contains;
    var payloads := Payloads(xml, files);
    if i :| 0 <= i < |files| && Contains(files[i].content, boundary) {
      assert Contains(payloads[1 + i], boundary);
    }
    if Contains(xml, boundary) {
      assert Contains(payloads[0], boundary);
    }
    if i :| 0 <= i < |payloads| && Contains(payloads[i], boundary) {
      assert i > 0 ==> Contains(files[i - 1].content, boundary);
    }
  }

  lemma FilePartBytes(boundary: Bytes, file: MultipartFile)
    ensures (CRLF + "--" + boundary + CRLF)
            + (Disposition(DispositionValue(file.name), DispositionValue(file.filename)) + CRLF)
            + ("Content-Type: " + Replace(file.contentType, "\r\n", "") + BLANK_LINE)
            + file.content
            == Delimiter(boundary) + CRLF + PartBytes(FilePart(file))
  {
    hide DispositionValue, Disposition, Replace;
    assert CRLF + "--" + boundary == Delimiter(boundary);
  }

  lemma XmlPartBytes(boundary: Bytes, action: Bytes, xml: Bytes)
    ensures CRLF + (("--" + boundary + CRLF) + (Disposition(action, action) + CRLF)
                    + ("Content-Type: text/xml" + BLANK_LINE) + xml)
            == Delimiter(boundary) + CRLF + PartBytes(XmlPart(action, xml))
  {
    hide Disposition;
    assert CRLF + "--" + boundary == Delimiter(boundary);
  }

  lemma OpenedOne(boundary: Bytes, before: seq<Part>, last: Part)
    ensures Opened(boundary, before + [last])
            == Opened(boundary, before) + (Delimiter(boundary) + CRLF + PartBytes(last))
  {
    assert (before + [last])[..|before|] == before;
  }

  lemma AppendFour(before: Bytes, a: Bytes, b: Bytes, c: Bytes, d: Bytes)
    ensures before + a + b + c + d == before + (a + b + c + d)
  {
  }

  lemma FirstPartOpened(boundary: Bytes, action: Bytes, xml: Bytes, written: Bytes)
    requires written == ("--" + boundary + CRLF) + (Disposition(action, action) + CRLF)
                        + ("Content-Type: text/xml" + BLANK_LINE) + xml
    ensures CRLF + written == Opened(boundary, [XmlPart(action, xml)])
  {
    hide Disposition, PartBytes, Delimiter, XmlPart;
    XmlPartBytes(boundary, action, xml);
    OpenedOne(boundary, [], XmlPart(action, xml));
    assert [] + [XmlPart(action, xml)] == [XmlPart(action, xml)];
  }

  lemma NextPartOpened(boundary: Bytes, before: seq<Part>, file: MultipartFile, written: Bytes, part: Bytes)
    requires CRLF + written == Opened(boundary, before)
    requires part == (CRLF + "--" + boundary + CRLF)
                     + (Disposition(DispositionValue(file.name), DispositionValue(file.filename)) + CRLF)
                     + ("Content-Type: " + Replace(file.contentType, "\r\n", "") + BLANK_LINE)
                     + file.content
    ensures CRLF + (written + part) == Opened(boundary, before + [FilePart(file)])
  {
    hide DispositionValue, Disposition, Replace, PartBytes, Delimiter, Opened, FilePart;
    FilePartBytes(boundary, file);
    OpenedOne(boundary, before, FilePart(file));
    assert CRLF + (written + part) == (CRLF + written) + part;
  }

  /** The body once the last delimiter closes it. */
  lemma Closed(boundary: Bytes, parts: seq<Part>, written: Bytes)
    requires CRLF + written == Opened(boundary, parts)
    ensures written + (CRLF + "--" + boundary + "--" + CRLF) == Body(boundary, parts)
  {
    var close := CRLF + "--" + boundary + "--" + CRLF;
    assert parts + [] == parts;
    assert close == Delimited(boundary, []);
    OpenedThenDelimited(boundary, parts, []);
    hide Opened, Delimited;
    AfterFirstBreak(written, close);
  }

  lemma AfterFirstBreak(written: Bytes, close: Bytes)
    ensures ((CRLF + written) + close)[2..] == written + close
  {
  }

  /** A body delimited by a boundary of the search that no payload holds. */
  ghost predicate Written(action: Bytes, xml: Bytes, files: seq<MultipartFile>, boundary: Bytes, body: Bytes) {
    && !Used(Payloads(xml, files), boundary)
    && (exists n :: boundary == Candidate(n))
    && body == Body(boundary, Parts(action, xml, files))
  }

  /** `multipart`: the boundary and the body it delimits. */
  method WriteMultipart(action: Bytes, xml: Bytes, files: seq<MultipartFile>)
    returns (contentType: Bytes, body: Bytes, boundary: Bytes)
    ensures Written(action, xml, files, boundary, body)
    ensures contentType == "multipart/form-data; boundary=" + boundary
  {
    hide DispositionValue, Disposition, Replace, PartBytes, Delimiter, Used, Candidate, Delimited, Body, FilePart;
    hide XmlPart, Opened, Payloads, TotalSize;
    var candidate;
    boundary, candidate := MultipartBoundary(xml, files);
    body := "--" + boundary + CRLF;
    body := body + (Disposition(action, action) + CRLF);
    body := body + ("Content-Type: text/xml" + BLANK_LINE);
    body := body + xml;
    ghost var parts := Parts(action, xml, files);
    FirstPartOpened(boundary, action, xml, body);
    assert parts[..1] == [XmlPart(action, xml)];
    for i := 0 to |files|
      invariant CRLF + body == Opened(boundary, parts[..i + 1])
    {
      ghost var before := body;
      var file := files[i];
      var delimiter := CRLF + "--" + boundary + CRLF;
      var disposition := Disposition(DispositionValue(file.name), DispositionValue(file.filename)) + CRLF;
      var fileType := "Content-Type: " + Replace(file.contentType, "\r\n", "") + BLANK_LINE;
      body := body + delimiter;
      body := body + disposition;
      body := body + fileType;
      body := body + file.content;
      AppendFour(before, delimiter, disposition, fileType, file.content);
      NextPartOpened(boundary, parts[..i + 1], file, before, delimiter + disposition + fileType + file.content);
      assert parts[..i + 2] == parts[..i + 1] + [FilePart(file)];
    }
    assert parts[..|files| + 1] == parts;
    Closed(boundary, parts, body);
    body := body + (CRLF + "--" + boundary + "--" + CRLF);
    contentType := "multipart/form-data; boundary=" + boundary;
  }
}
