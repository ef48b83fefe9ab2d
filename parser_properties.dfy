/**
 * What the line grammar guarantees: the round trip of key and value, the key-only form, the
 * position of every kind of error, what trimming removes, and the effect of the C parser's
 * 8-bit value length.
 */
module ParserProperties {
  import opened KeyRegistryDefs
  import opened KeyParser

  /** The parse is the key and value scan of the line without its n leading spaces and its terminators. */
  lemma ParseLineFrom(line: string, n: nat, end: nat, lengthWraps: bool)
    requires n <= |line| && LeadingSpaces(line) == n && end == n + TrimmedLength(line, n)
    ensures ParseLine(line, lengthWraps) == ParseTrimmed(line, n, end, lengthWraps)
  {
  }

  lemma LeadingSpacesOf(n: nat, rest: string)
    requires rest == [] || rest[0] != ' '
    ensures LeadingSpaces(Spaces(n) + rest) == n
  {
    LeadingSpacesIs(Spaces(n) + rest, n);
  }

  /** Trimming removes the terminators of a line that ends in body + eol, and no more. */
  lemma TrimmedLengthOf(line: string, lead: nat, body: string, eol: string)
    requires lead <= |line| && line[lead..] == body + eol && EolTail(eol)
    requires body == [] || !IsEol(body[|body| - 1])
    ensures TrimmedLength(line, lead) == |body|
  {
    var l0 := |line| - lead;
    assert forall i :: 0 <= i < |eol| ==> line[lead + |body| + i] == eol[i] by {
      forall i | 0 <= i < |eol| ensures line[lead + |body| + i] == eol[i] {
        assert line[lead..][|body| + i] == eol[i];
      }
    }
    if |body| > 0 {
      assert line[lead + |body| - 1] == line[lead..][|body| - 1] == body[|body| - 1];
    }
  }

  /** Trimming never cuts into a prefix that ends in a character other than '\r' or '\n'. */
  lemma TrimmedLengthKeeps(line: string, lead: nat, m: nat)
    requires 0 < m && lead + m <= |line| && !IsEol(line[lead + m - 1])
    ensures TrimmedLength(line, lead) >= m
  {
  }

  /**
   * Trimming removes at most two characters from the end, each '\r' or '\n'; when fewer
   * than two were removed, the trimmed line does not end in one.
   */
  lemma TrimFacts(line: string, lead: nat)
    requires lead <= |line|
    ensures var t := TrimmedLength(line, lead);
      && t + 2 >= |line| - lead
      && EolTail(line[lead + t..])
      && (t > 0 && IsEol(line[lead + t - 1]) ==> t + 2 == |line| - lead)
  {
  }

  /** Key-only input, optionally indented and terminated, parses to that key with an empty value. */
  lemma ParseKeyOnly(n: nat, k: string, eol: string)
    requires ValidKey(k) && EolTail(eol)
    ensures Parse(Spaces(n) + k + eol) == Parsed(k, [])
  {
    var line := Spaces(n) + k + eol;
    assert line == Spaces(n) + (k + eol);
    LeadingSpacesOf(n, k + eol);
    assert line[n..] == k + eol;
    TrimmedLengthOf(line, n, k, eol);
    assert line[n..n + |k|] == k;
    KeyEndIs(line, n, n + |k|, n + |k|);
  }

  /** In a trimmed line that holds k, one space and v, the key ends at the space. */
  lemma KeyValueSplit(line: string, lead: nat, end: nat, k: string, v: string)
    requires ValidKey(k) && end == lead + |k| + 1 + |v| <= |line|
    requires line[lead..end] == k + " " + v
    ensures KeyEnd(line, lead, end) == lead + |k| && line[lead + |k|] == ' '
    ensures line[lead..lead + |k|] == k && line[lead + |k| + 1..end] == v
  {
    var j := lead + |k|;
    var w := k + " " + v;
    assert forall i :: 0 <= i < |k| ==> line[lead + i] == w[i];
    assert line[j] == w[|k|] == ' ';
    KeyEndIs(line, lead, end, j);
    assert line[lead..j] == w[..|k|] == k;
    assert line[j + 1..end] == w[|k| + 1..] == v;
  }

  /** Key and value scanning of a trimmed line that holds k, one space and v. */
  lemma ParseTrimmedKeyValue(line: string, lead: nat, end: nat, k: string, v: string, lengthWraps: bool)
    requires ValidKey(k) && end == lead + |k| + 1 + |v| <= |line|
    requires line[lead..end] == k + " " + v
    ensures var m := ValueLength(|v|, lengthWraps);
      ParseTrimmed(line, lead, end, lengthWraps) ==
        if m > MaxValLen then ParseError(ValTooLong, U16(lead + |k| + 1 + MaxValLen + 1))
        else Parsed(k, v[..m])
  {
    var j := lead + |k|;
    KeyValueSplit(line, lead, end, k, v);
    assert ParseTrimmed(line, lead, end, lengthWraps) == (
      var n := ValueLength(end - (j + 1), lengthWraps);
      if n > MaxValLen then ParseError(ValTooLong, U16(j + 1 + MaxValLen + 1))
      else Parsed(line[lead..j], line[j + 1..j + 1 + n]));
  }

  /** Leading spaces and trimmed extent of an indented key-value line. */
  lemma KeyValueLineFacts(line: string, n: nat, k: string, v: string, eol: string)
    requires ValidKey(k) && EolTail(eol)
    requires v == [] || !IsEol(v[|v| - 1])
    requires line == Spaces(n) + k + " " + v + eol
    ensures LeadingSpaces(line) == n
    ensures TrimmedLength(line, n) == |k| + 1 + |v|
    ensures line[n..n + |k| + 1 + |v|] == k + " " + v
  {
    var body := k + " " + v;
    assert line == Spaces(n) + (body + eol);
    LeadingSpacesOf(n, body + eol);
    assert line[n..] == body + eol;
    TrimmedLengthOf(line, n, body, eol);
  }

  /**
   * A key, one space and a value (whose last character is not a terminator) parse to the key and
   * the value's first ValueLength(|v|) characters, or fail with VAL_TOO_LONG at the 33rd value
   * character when that length exceeds 32.
   */
  lemma ParseLineKeyValue(n: nat, k: string, v: string, eol: string, lengthWraps: bool)
    requires ValidKey(k) && EolTail(eol)
    requires v == [] || !IsEol(v[|v| - 1])
    ensures var m := ValueLength(|v|, lengthWraps);
      ParseLine(Spaces(n) + k + " " + v + eol, lengthWraps) ==
        if m > MaxValLen then ParseError(ValTooLong, U16(n + |k| + 1 + MaxValLen + 1))
        else Parsed(k, v[..m])
  {
    var line := Spaces(n) + k + " " + v + eol;
    KeyValueLineFacts(line, n, k, v, eol);
    var end := n + |k| + 1 + |v|;
    ParseLineFrom(line, n, end, lengthWraps);
    ParseTrimmedKeyValue(line, n, end, k, v, lengthWraps);
  }

  /** Round trip: formatting a key and a value of at most 32 characters as a line and parsing it gives them back. */
  lemma ParseRoundTrip(n: nat, k: string, v: string, eol: string)
    requires ValidKey(k) && |v| <= MaxValLen && EolTail(eol)
    requires v == [] || !IsEol(v[|v| - 1])
    ensures Parse(Spaces(n) + k + " " + v + eol) == Parsed(k, v)
  {
    ParseLineKeyValue(n, k, v, eol, false);
  }

  /** A value longer than 32 characters fails, positioned at its 33rd character. */
  lemma ParseValueTooLong(n: nat, k: string, v: string, eol: string)
    requires ValidKey(k) && |v| > MaxValLen && EolTail(eol)
    requires !IsEol(v[|v| - 1])
    ensures Parse(Spaces(n) + k + " " + v + eol) == ParseError(ValTooLong, U16(n + |k| + 1 + 33))
  {
    ParseLineKeyValue(n, k, v, eol, false);
  }

  /** Empty or spaces-only input (terminated or not) gives KEY_EMPTY at the terminator. */
  lemma ParseBlank(n: nat, eol: string)
    requires EolTail(eol)
    ensures Parse(Spaces(n) + eol) == ParseError(KeyEmpty, U16(n + 1))
  {
    var line := Spaces(n) + eol;
    LeadingSpacesOf(n, eol);
    assert line[n..] == [] + eol;
    TrimmedLengthOf(line, n, [], eol);
  }

  /** The 17th letter or digit of a key gives KEY_TOO_LONG at its own position. */
  lemma ParseKeyTooLong(n: nat, s: string)
    requires |s| > MaxKeyLen && forall i :: 0 <= i <= MaxKeyLen ==> IsAlnum(s[i])
    ensures Parse(Spaces(n) + s) == ParseError(KeyTooLong, U16(n + 17))
  {
    var line := Spaces(n) + s;
    LeadingSpacesOf(n, s);
    assert forall i :: 0 <= i <= MaxKeyLen ==> line[n + i] == s[i];
    TrimmedLengthKeeps(line, n, MaxKeyLen + 1);
  }

  /**
   * A character in the key that is not a letter, digit, space or NUL (a tab, say) gives
   * KEY_INVALID at its own position; such a character is never trimmed away.
   */
  lemma ParseInvalidChar(n: nat, k: string, c: char, rest: string)
    requires |k| <= MaxKeyLen && forall i :: 0 <= i < |k| ==> IsAlnum(k[i])
    requires !IsAlnum(c) && c != ' ' && c != '\0' && !IsEol(c)
    ensures Parse(Spaces(n) + k + [c] + rest) == ParseError(KeyInvalid, U16(n + |k| + 1))
  {
    var line := Spaces(n) + k + [c] + rest;
    assert line == Spaces(n) + (k + [c] + rest);
    LeadingSpacesOf(n, k + [c] + rest);
    assert line[n + |k|] == c;
    assert forall i :: 0 <= i < |k| ==> line[n + i] == k[i];
    TrimmedLengthKeeps(line, n, |k| + 1);
    KeyEndIs(line, n, n + TrimmedLength(line, n), n + |k|);
  }

  /** Tabs are not blanks here: a tab directly after a key is an invalid key character. */
  lemma ParseTabAfterKey(n: nat, k: string, rest: string)
    requires ValidKey(k)
    ensures Parse(Spaces(n) + k + "\t" + rest) == ParseError(KeyInvalid, U16(n + |k| + 1))
  {
    ParseInvalidChar(n, k, '\t', rest);
  }

  /**
   * Converse of the round trip: a successful parse found its key right after the leading
   * spaces, and a non-empty value right after one space, followed only by a stripped ending.
   */
  lemma ParsedShape(line: string)
    requires Parse(line).Parsed?
    ensures var n, k, v := LeadingSpaces(line), Parse(line).key, Parse(line).value;
      && line[..n] == Spaces(n)
      && n + |k| <= |line| && line[n..n + |k|] == k
      && (v != [] ==> n + |k| + 1 + |v| <= |line| && line[n + |k|] == ' ' && line[n + |k| + 1..n + |k| + 1 + |v|] == v)
      && (v != [] ==> n + |k| + 1 + |v| <= |line| && EolTail(line[n + |k| + 1 + |v|..]))
  {
    var n := LeadingSpaces(line);
    assert line[..n] == Spaces(n);
    ParsedKeyAt(line);
    ParsedValueAt(line);
    ParsedEndStripped(line);
  }

  lemma ParsedKeyAt(line: string)
    requires Parse(line).Parsed?
    ensures var n, k := LeadingSpaces(line), Parse(line).key;
      n + |k| <= |line| && line[n..n + |k|] == k
  {
    var n := LeadingSpaces(line);
    ParseLineFrom(line, n, n + TrimmedLength(line, n), false);
    ParsedTrimmedShape(line, n, n + TrimmedLength(line, n));
  }

  lemma ParsedValueAt(line: string)
    requires Parse(line).Parsed?
    ensures var n, k, v := LeadingSpaces(line), Parse(line).key, Parse(line).value;
      v != [] ==> n + |k| + 1 + |v| <= |line| && line[n + |k|] == ' ' && line[n + |k| + 1..n + |k| + 1 + |v|] == v
  {
    var n := LeadingSpaces(line);
    ParseLineFrom(line, n, n + TrimmedLength(line, n), false);
    ParsedTrimmedShape(line, n, n + TrimmedLength(line, n));
  }

  lemma ParsedEndStripped(line: string)
    requires Parse(line).Parsed?
    ensures var n, k, v := LeadingSpaces(line), Parse(line).key, Parse(line).value;
      v != [] ==> n + |k| + 1 + |v| <= |line| && EolTail(line[n + |k| + 1 + |v|..])
  {
    var n := LeadingSpaces(line);
    ParseLineFrom(line, n, n + TrimmedLength(line, n), false);
    TrimFacts(line, n);
    ParsedTrimmedShape(line, n, n + TrimmedLength(line, n));
  }

  lemma ParsedTrimmedShape(line: string, lead: nat, end: nat)
    requires lead <= end <= |line| && (lead == end || line[lead] != ' ')
    requires ParseTrimmed(line, lead, end, false).Parsed?
    ensures var k, v := ParseTrimmed(line, lead, end, false).key, ParseTrimmed(line, lead, end, false).value;
      && lead + |k| <= end && line[lead..lead + |k|] == k
      && (v != [] ==> lead + |k| + 1 + |v| == end && line[lead + |k|] == ' ' && line[lead + |k| + 1..end] == v)
  {
  }

  // ---------------------------------------------------------------------------------------
  // The 8-bit value length of the C parser
  // ---------------------------------------------------------------------------------------

  /** On lines of at most 257 characters (every wire message) the 8-bit length is exact. */
  lemma ParseAsWrittenAgreesOnShortLines(line: string)
    requires |line| <= 257
    ensures ParseAsWritten(line) == Parse(line)
  {
    var lead := LeadingSpaces(line);
    var end := lead + TrimmedLength(line, lead);
    var j := KeyEnd(line, lead, end);
    if j < end && line[j] == ' ' {
      assert j > lead;
      assert ValueLength(end - (j + 1), true) == ValueLength(end - (j + 1), false);
    }
  }

  /**
   * As written, a value of 256 characters passes the length check as a value of length 0:
   * the line is accepted with an empty value where VAL_TOO_LONG is due.
   */
  lemma ParseAsWrittenAcceptsOverlongValue()
    ensures var line := "k " + seq(256, _ => 'a');
      && ParseAsWritten(line) == Parsed("k", [])
      && Parse(line) == ParseError(ValTooLong, 35)
  {
    var v := seq(256, _ => 'a');
    assert Spaces(0) + "k" + " " + v + [] == "k " + v;
    ParseLineKeyValue(0, "k", v, [], true);
    ParseLineKeyValue(0, "k", v, [], false);
  }
}
