/**
 * The line grammar shared by registry-file loading and wire commands:
 *
 *   [spaces] KEY [' ' VALUE] [up to two of '\r' / '\n']
 *
 * with KEY made of 1 .. 16 ASCII letters or digits and VALUE any 0 .. 32 characters taken
 * verbatim. Error positions are 1-based offsets in the line as given (leading spaces
 * count), held in 16 bits.
 */
module KeyParser {
  import opened KeyRegistryDefs

  datatype ParseResult =
    | Parsed(key: string, value: string)
    | ParseError(code: Code, errPos: nat)

  /** ASCII letter or digit (isalpha || isdigit in the C locale). */
  predicate IsAlnum(c: char)
  {
    ('a' <= c <= 'z') || ('A' <= c <= 'Z') || ('0' <= c <= '9')
  }

  predicate IsEol(c: char)
  {
    c == '\r' || c == '\n'
  }

  predicate ValidKey(k: string)
  {
    1 <= |k| <= MaxKeyLen && forall i :: 0 <= i < |k| ==> IsAlnum(k[i])
  }

  /** A line ending the parser strips completely: at most two characters, each '\r' or '\n'. */
  predicate EolTail(eol: string)
  {
    |eol| <= 2 && forall i :: 0 <= i < |eol| ==> IsEol(eol[i])
  }

  function Spaces(n: nat): (s: string)
    ensures |s| == n && forall i :: 0 <= i < n ==> s[i] == ' '
  {
    seq(n, _ => ' ')
  }

  /** Number of leading ' ' characters (tabs and other blanks are not skipped). */
  function LeadingSpaces(s: string): (n: nat)
    ensures n <= |s|
    ensures forall i :: 0 <= i < n ==> s[i] == ' '
    ensures n == |s| || s[n] != ' '
  {
    SpacesEnd(s, 0)
  }

  /** First index at or after i that does not hold ' ', or |s|. */
  function SpacesEnd(s: string, i: nat): (n: nat)
    requires i <= |s|
    ensures i <= n <= |s|
    ensures forall k :: i <= k < n ==> s[k] == ' '
    ensures n == |s| || s[n] != ' '
    decreases |s| - i
  {
    if i < |s| && s[i] == ' ' then SpacesEnd(s, i + 1) else i
  }

  /** One step of trailing-terminator removal on line[start .. start + len]. */
  function StripEol(line: string, start: nat, len: nat): (r: nat)
    requires start + len <= |line|
    ensures r <= len
  {
    if len > 0 && IsEol(line[start + len - 1]) then len - 1 else len
  }

  /** Length of line[start..] once at most two trailing '\r' / '\n' are removed. */
  function TrimmedLength(line: string, start: nat): (r: nat)
    requires start <= |line|
    ensures r <= |line| - start
  {
    StripEol(line, start, StripEol(line, start, |line| - start))
  }

  /** First index in [i, end) that is not a letter or digit, or end. */
  function KeyEnd(line: string, i: nat, end: nat): (j: nat)
    requires i <= end <= |line|
    ensures i <= j <= end
    ensures forall k :: i <= k < j ==> IsAlnum(line[k])
    ensures j < end ==> !IsAlnum(line[j])
    decreases end - i
  {
    if i < end && IsAlnum(line[i]) then KeyEnd(line, i + 1, end) else i
  }

  /** The value length as the parser holds it: exactly, or in an 8-bit variable. */
  function ValueLength(n: nat, lengthWraps: bool): nat
  {
    if lengthWraps then n % 256 else n
  }

  /**
   * The parser. After the leading spaces and the trailing terminators are removed the key is
   * the run of letters and digits; it may end at the end of the trimmed line (or at a NUL
   * character, where the C string ends) giving a key-only line, or at one space after which
   * the rest is the value; any other character is invalid. `lengthWraps` selects whether the
   * value length is kept exactly or modulo 256.
   */
  function ParseLine(line: string, lengthWraps: bool): (r: ParseResult)
    ensures r.Parsed? ==> ValidKey(r.key) && |r.value| <= MaxValLen
    ensures r.ParseError? ==> r.code in {KeyEmpty, KeyInvalid, KeyTooLong, ValTooLong}
    ensures r.ParseError? ==> r.errPos < 0x1_0000
  {
    var lead := LeadingSpaces(line);
    ParseTrimmed(line, lead, lead + TrimmedLength(line, lead), lengthWraps)
  }

  /** Key and value scanning of line[lead..end], the line without its spaces and terminators. */
  function ParseTrimmed(line: string, lead: nat, end: nat, lengthWraps: bool): (r: ParseResult)
    requires lead <= end <= |line|
    requires lead == end || line[lead] != ' '
    ensures r.Parsed? ==> ValidKey(r.key) && |r.value| <= MaxValLen
    ensures r.ParseError? ==> r.code in {KeyEmpty, KeyInvalid, KeyTooLong, ValTooLong}
    ensures r.ParseError? ==> r.errPos < 0x1_0000
  {
    var j := KeyEnd(line, lead, end);
    if j - lead > MaxKeyLen then
      ParseError(KeyTooLong, U16(lead + MaxKeyLen + 1))
    else if j == end || line[j] == '\0' then
      if j == lead then ParseError(KeyEmpty, U16(j + 1)) else Parsed(line[lead..j], [])
    else if line[j] == ' ' then
      var n := ValueLength(end - (j + 1), lengthWraps);
      if n > MaxValLen then ParseError(ValTooLong, U16(j + 1 + MaxValLen + 1))
      else Parsed(line[lead..j], line[j + 1..j + 1 + n])
    else
      ParseError(KeyInvalid, U16(j + 1))
  }

  /** The parser with the value length kept exactly; the rest of the model uses this one. */
  function Parse(line: string): ParseResult
  {
    ParseLine(line, false)
  }

  /**
   * The parser as written in the C source, whose value length is a uint8_t: it too yields
   * only valid keys and values of at most 32 characters, but may cut a longer value short.
   */
  function ParseAsWritten(line: string): (r: ParseResult)
    ensures r.Parsed? ==> ValidKey(r.key) && |r.value| <= MaxValLen
    ensures r.ParseError? ==> r.code in {KeyEmpty, KeyInvalid, KeyTooLong, ValTooLong}
  {
    ParseLine(line, true)
  }

  lemma LeadingSpacesIs(s: string, n: nat)
    requires n <= |s| && (forall i :: 0 <= i < n ==> s[i] == ' ') && (n == |s| || s[n] != ' ')
    ensures LeadingSpaces(s) == n
  {
  }

  lemma KeyEndIs(line: string, i: nat, end: nat, j: nat)
    requires i <= j <= end <= |line|
    requires forall k :: i <= k < j ==> IsAlnum(line[k])
    requires j < end ==> !IsAlnum(line[j])
    ensures KeyEnd(line, i, end) == j
  {
  }

  /**
   * The parse as parseKeyValue performs it: a loop over the leading spaces, two rounds of
   * terminator removal, a loop over the key, then the value as the remainder. With
   * `lengthWraps` the value length is held in 8 bits as in the C source; without it, exactly.
   */
  method ParseKeyValue(line: string, lengthWraps: bool) returns (res: ParseResult)
    ensures res == ParseLine(line, lengthWraps)
  {
    // remove leading spaces
    var p := 0;
    var len := |line|;
    while p < |line| && line[p] == ' '
      invariant 0 <= p <= |line| && len == |line| - p
      invariant forall k :: 0 <= k < p ==> line[k] == ' '
    {
      p := p + 1;
      len := len - 1;
    }
    LeadingSpacesIs(line, p);

    // remove up to two trailing '\r' / '\n'
    for i := 0 to 2
      invariant p + len <= |line|
      invariant len == (if i == 0 then |line| - p
                        else if i == 1 then StripEol(line, p, |line| - p)
                        else TrimmedLength(line, p))
    {
      if len > 0 && IsEol(line[p + len - 1]) {
        len := len - 1;
      }
    }
    res := ScanKeyValue(line, p, p + len, lengthWraps);
  }

  /** The key loop of parseKeyValue and the value that follows it, over line[lead..end]. */
  method ScanKeyValue(line: string, p: nat, end: nat, lengthWraps: bool) returns (res: ParseResult)
    requires p <= end <= |line|
    requires p == end || line[p] != ' '
    ensures res == ParseTrimmed(line, p, end, lengthWraps)
  {
    var q := p;
    var keyLen := 0;
    while true
      invariant p <= q <= end && keyLen == q - p <= MaxKeyLen
      invariant forall k :: p <= k < q ==> IsAlnum(line[k])
      decreases end - q
    {
      var c := if q < end then line[q] else '\0';
      if IsAlnum(c) {
        keyLen := keyLen + 1;
        if keyLen > MaxKeyLen {
          return ParseError(KeyTooLong, U16(q + 1));
        }
      } else if c == ' ' {
        KeyEndIs(line, p, end, q);
        break;
      } else if c == '\0' {
        KeyEndIs(line, p, end, q);
        if keyLen == 0 {
          return ParseError(KeyEmpty, U16(q + 1));
        }
        return Parsed(line[p..q], []);
      } else {
        KeyEndIs(line, p, end, q);
        return ParseError(KeyInvalid, U16(q + 1));
      }
      q := q + 1;
    }

    // skip the separating space; the rest of the trimmed line is the value
    var keyEnd := q;
    q := q + 1;
    var valLen := if lengthWraps then (end - q) % 256 else end - q;
    if valLen > MaxValLen {
      return ParseError(ValTooLong, U16(q + MaxValLen + 1));
    }
    return Parsed(line[p..keyEnd], line[q..q + valLen]);
  }
}
