/**
 * What loading, GET and PUT promise: a load stops at the first bad line and otherwise stores
 * every parsed line in order; a file written as "key value" lines loads back exactly; a PUT
 * is seen by the next GET of its key and by no other.
 */
module RegistryProperties {
  import opened Wrappers
  import opened KeyRegistryDefs
  import opened KeyParser
  import opened KeyStore
  import opened KeyRegistry
  import opened ParserProperties

  /** A line that stops the load: not blank, and rejected by the parser. */
  predicate IsBadLine(line: string)
  {
    !IsBlankLine(line) && Parse(line).ParseError?
  }

  /** Index of the first bad line at or after i. */
  function FirstBadLine(lines: seq<string>, i: nat): (r: Option<nat>)
    requires i <= |lines|
    ensures r.Some? ==> i <= r.value < |lines| && IsBadLine(lines[r.value])
    ensures forall k :: i <= k < (if r.Some? then r.value else |lines|) ==> !IsBadLine(lines[k])
    decreases |lines| - i
  {
    if i == |lines| then None
    else if IsBadLine(lines[i]) then Some(i)
    else FirstBadLine(lines, i + 1)
  }

  /** The pairs parsed from the lines in [i, j) that are neither blank nor bad, in order. */
  function LinePairs(lines: seq<string>, i: nat, j: nat): seq<Entry>
    requires i <= j <= |lines|
    decreases j - i
  {
    if i == j then []
    else
      var line := lines[i];
      (if !IsBlankLine(line) && Parse(line).Parsed? then [Entry(Parse(line).key, Parse(line).value)] else [])
        + LinePairs(lines, i + 1, j)
  }

  lemma StoreAllCons(entries: seq<Entry>, allowUpdate: bool, p: Entry, rest: seq<Entry>)
    ensures StoreAll(entries, allowUpdate, [p] + rest) ==
      StoreAll(Store(entries, allowUpdate, p.key, p.value).entries, allowUpdate, rest)
  {
    assert ([p] + rest)[0] == p && ([p] + rest)[1..] == rest;
  }

  /** LoadFrom on a line that is neither blank nor bad: the pair is stored and the load goes on. */
  lemma LoadFromParsed(entries: seq<Entry>, allowUpdate: bool, lines: seq<string>, i: nat, lineNr: nat, errPos: nat)
    requires i < |lines| && !IsBlankLine(lines[i]) && Parse(lines[i]).Parsed?
    ensures var p := Parse(lines[i]);
      LoadFrom(entries, allowUpdate, lines, i, lineNr, errPos) ==
        LoadFrom(Store(entries, allowUpdate, p.key, p.value).entries, allowUpdate, lines, i + 1, 0, 0)
  {
  }

  /** LoadFrom on a blank line: the line is skipped. */
  lemma LoadFromBlank(entries: seq<Entry>, allowUpdate: bool, lines: seq<string>, i: nat, lineNr: nat, errPos: nat)
    requires i < |lines| && IsBlankLine(lines[i])
    ensures LoadFrom(entries, allowUpdate, lines, i, lineNr, errPos) ==
      LoadFrom(entries, allowUpdate, lines, i + 1, lineNr, errPos)
  {
  }

  /**
   * A load from line i without a bad line succeeds having stored every parsed line in order;
   * the reported position is cleared once any line has been stored.
   */
  lemma {:induction false} LoadFromClean(entries: seq<Entry>, allowUpdate: bool, lines: seq<string>, i: nat,
                                         lineNr: nat, errPos: nat)
    requires i <= |lines| && FirstBadLine(lines, i).None?
    ensures var r := LoadFrom(entries, allowUpdate, lines, i, lineNr, errPos);
      && r.code == Ok
      && r.entries == StoreAll(entries, allowUpdate, LinePairs(lines, i, |lines|))
      && (r.lineNr, r.errPos) == if LinePairs(lines, i, |lines|) == [] then (lineNr, errPos) else (0, 0)
    decreases |lines| - i
  {
    if i < |lines| {
      var line := lines[i];
      if IsBlankLine(line) {
        LoadFromBlank(entries, allowUpdate, lines, i, lineNr, errPos);
        LoadFromClean(entries, allowUpdate, lines, i + 1, lineNr, errPos);
        assert LinePairs(lines, i, |lines|) == LinePairs(lines, i + 1, |lines|);
      } else {
        var p := Entry(Parse(line).key, Parse(line).value);
        LoadFromParsed(entries, allowUpdate, lines, i, lineNr, errPos);
        LoadFromClean(Store(entries, allowUpdate, p.key, p.value).entries, allowUpdate, lines, i + 1, 0, 0);
        assert LinePairs(lines, i, |lines|) == [p] + LinePairs(lines, i + 1, |lines|);
        StoreAllCons(entries, allowUpdate, p, LinePairs(lines, i + 1, |lines|));
      }
    }
  }

  /**
   * A load from line i whose first bad line is j fails with that line's parse code, its
   * 1-based number and the parser's position, having stored the parsed lines before it.
   */
  lemma {:induction false} LoadFromBad(entries: seq<Entry>, allowUpdate: bool, lines: seq<string>, i: nat, j: nat,
                                       lineNr: nat, errPos: nat)
    requires i <= j < |lines| && FirstBadLine(lines, i) == Some(j)
    ensures var r := LoadFrom(entries, allowUpdate, lines, i, lineNr, errPos);
      && r.code == Parse(lines[j]).code
      && r.lineNr == U16(j + 1)
      && r.errPos == Parse(lines[j]).errPos
      && r.entries == StoreAll(entries, allowUpdate, LinePairs(lines, i, j))
    decreases |lines| - i
  {
    var line := lines[i];
    if i < j {
      if IsBlankLine(line) {
        LoadFromBlank(entries, allowUpdate, lines, i, lineNr, errPos);
        LoadFromBad(entries, allowUpdate, lines, i + 1, j, lineNr, errPos);
        assert LinePairs(lines, i, j) == LinePairs(lines, i + 1, j);
      } else {
        var p := Entry(Parse(line).key, Parse(line).value);
        LoadFromParsed(entries, allowUpdate, lines, i, lineNr, errPos);
        LoadFromBad(Store(entries, allowUpdate, p.key, p.value).entries, allowUpdate, lines, i + 1, j, 0, 0);
        assert LinePairs(lines, i, j) == [p] + LinePairs(lines, i + 1, j);
        StoreAllCons(entries, allowUpdate, p, LinePairs(lines, i + 1, j));
      }
    }
  }

  /**
   * A line of spaces is not blank: it reaches the parser and stops the load with KEY_EMPTY at
   * the position after the spaces.
   */
  lemma SpacesOnlyLineIsBad(n: nat, eol: string)
    requires n > 0 && EolTail(eol)
    ensures IsBadLine(Spaces(n) + eol) && Parse(Spaces(n) + eol) == ParseError(KeyEmpty, U16(n + 1))
  {
    ParseBlank(n, eol);
    assert (Spaces(n) + eol)[0] == ' ';
  }

  /** Loading never fails on a duplicate key: the store's result is ignored. */
  lemma LoadIgnoresDuplicates(entries: seq<Entry>, allowUpdate: bool, file: Option<string>, lineNr: nat, errPos: nat)
    ensures ReadRegistry(entries, allowUpdate, file, lineNr, errPos).code !in {KeyExists, KeyNotFound}
  {
  }

  /** Every pair a load stores is one the parser produced, so it is a valid entry. */
  lemma {:induction false} LinePairsValid(lines: seq<string>, i: nat, j: nat)
    requires i <= j <= |lines|
    ensures forall k :: 0 <= k < |LinePairs(lines, i, j)| ==> ValidEntry(LinePairs(lines, i, j)[k])
    decreases j - i
  {
    if i < j {
      LinePairsValid(lines, i + 1, j);
    }
  }

  /** Loading keeps the registry invariant. */
  lemma LoadPreservesValid(entries: seq<Entry>, allowUpdate: bool, file: Option<string>, lineNr: nat, errPos: nat)
    requires ValidEntries(entries)
    ensures ValidEntries(ReadRegistry(entries, allowUpdate, file, lineNr, errPos).entries)
  {
    if file.Some? {
      var lines := Lines(file.value);
      match FirstBadLine(lines, 0)
      case None =>
        LoadFromClean(entries, allowUpdate, lines, 0, lineNr, errPos);
        LinePairsValid(lines, 0, |lines|);
        StoreAllPreservesValid(entries, allowUpdate, LinePairs(lines, 0, |lines|));
      case Some(j) =>
        LoadFromBad(entries, allowUpdate, lines, 0, j, lineNr, errPos);
        LinePairsValid(lines, 0, j);
        StoreAllPreservesValid(entries, allowUpdate, LinePairs(lines, 0, j));
    }
  }

  /**
   * In strict mode, after a load without a bad line, a key that was not yet in the registry
   * holds the value of its first line in the file.
   */
  lemma LoadStrictFirstWins(entries: seq<Entry>, content: string, k: string)
    requires FirstBadLine(Lines(content), 0).None? && Lookup(entries, k).None?
    ensures var lines := Lines(content);
      Lookup(ReadRegistry(entries, false, Some(content), 0, 0).entries, k) == Lookup(LinePairs(lines, 0, |lines|), k)
  {
    var lines := Lines(content);
    LoadFromClean(entries, false, lines, 0, 0, 0);
    StoreAllStrict(entries, LinePairs(lines, 0, |lines|), k);
  }

  /** With updates allowed, after a load without a bad line, a key holds the value of its last line. */
  lemma LoadUpdateLastWins(entries: seq<Entry>, content: string, k: string)
    requires FirstBadLine(Lines(content), 0).None?
    ensures var lines := Lines(content); var pairs := LinePairs(lines, 0, |lines|);
      Lookup(ReadRegistry(entries, true, Some(content), 0, 0).entries, k) ==
        if LastValue(pairs, k).Some? then LastValue(pairs, k) else Lookup(entries, k)
  {
    var lines := Lines(content);
    LoadFromClean(entries, true, lines, 0, 0, 0);
    StoreAllUpdate(entries, LinePairs(lines, 0, |lines|), k);
  }

  /*** Writing a registry file and loading it back ***/

  /** A value a registry file line can carry unchanged: no '\n' inside, not ending in '\r'. */
  predicate FileValue(v: string)
  {
    (forall i :: 0 <= i < |v| ==> v[i] != '\n') && (v == [] || !IsEol(v[|v| - 1]))
  }

  function FormatLine(e: Entry): string
  {
    e.key + " " + e.value + "\n"
  }

  function FormatFile(es: seq<Entry>): string
    decreases |es|
  {
    if es == [] then [] else FormatLine(es[0]) + FormatFile(es[1..])
  }

  /** The line of a valid entry with a file value ends at its own '\n', and parses back to the entry. */
  lemma FormatLineFacts(e: Entry, rest: string)
    requires ValidEntry(e) && FileValue(e.value)
    ensures LineEnd(FormatLine(e) + rest, 0) == |FormatLine(e)|
    ensures Parse(FormatLine(e)) == Parsed(e.key, e.value)
    ensures !IsBlankLine(FormatLine(e))
  {
    var s := FormatLine(e) + rest;
    var n := |FormatLine(e)|;
    assert forall k :: 0 <= k < |e.key| ==> s[k] == e.key[k];
    assert forall k :: 0 <= k < |e.value| ==> s[|e.key| + 1 + k] == e.value[k];
    assert s[n - 1] == '\n';
    LineEndIs(s, 0, n);
    assert Spaces(0) + e.key + " " + e.value + "\n" == FormatLine(e);
    ParseRoundTrip(0, e.key, e.value, "\n");
    assert FormatLine(e)[0] == e.key[0];
  }

  /** Splitting a written file gives back its lines. */
  lemma {:induction false} LinesOfFormatFile(es: seq<Entry>)
    requires forall i :: 0 <= i < |es| ==> ValidEntry(es[i]) && FileValue(es[i].value)
    ensures |Lines(FormatFile(es))| == |es|
    ensures forall i :: 0 <= i < |es| ==> Lines(FormatFile(es))[i] == FormatLine(es[i])
    decreases |es|
  {
    if es != [] {
      var line := FormatLine(es[0]);
      var c := FormatFile(es);
      FormatLineFacts(es[0], FormatFile(es[1..]));
      assert c[..|line|] == line && c[|line|..] == FormatFile(es[1..]);
      LinesOfFormatFile(es[1..]);
    }
  }

  lemma {:induction false} LinePairsOfFormatted(es: seq<Entry>, lines: seq<string>, i: nat)
    requires |lines| == |es| && i <= |es|
    requires forall k :: 0 <= k < |es| ==> ValidEntry(es[k]) && FileValue(es[k].value) && lines[k] == FormatLine(es[k])
    ensures FirstBadLine(lines, i).None?
    ensures LinePairs(lines, i, |lines|) == es[i..]
    decreases |es| - i
  {
    if i < |es| {
      FormatLineFacts(es[i], []);
      assert FormatLine(es[i]) + [] == FormatLine(es[i]);
      LinePairsOfFormatted(es, lines, i + 1);
      assert es[i..] == [es[i]] + es[i + 1..];
    }
  }

  /**
   * Round trip: a file holding one "key value" line per entry of a registry, loaded into an
   * empty registry, succeeds and rebuilds exactly those entries in the same order.
   */
  lemma LoadFormattedFile(es: seq<Entry>, allowUpdate: bool, lineNr: nat, errPos: nat)
    requires ValidEntries(es) && forall i :: 0 <= i < |es| ==> FileValue(es[i].value)
    ensures ReadRegistry([], allowUpdate, Some(FormatFile(es)), lineNr, errPos) ==
      LoadOutcome(Ok, if es == [] then lineNr else 0, if es == [] then errPos else 0, es)
  {
    var lines := Lines(FormatFile(es));
    FormattedLines(es);
    LoadFromClean([], allowUpdate, lines, 0, lineNr, errPos);
    assert [] + es == es;
    StoreAllFresh([], allowUpdate, es);
  }

  /** The lines of a written file hold no bad line and give back the entries as pairs. */
  lemma FormattedLines(es: seq<Entry>)
    requires forall i :: 0 <= i < |es| ==> ValidEntry(es[i]) && FileValue(es[i].value)
    ensures FirstBadLine(Lines(FormatFile(es)), 0).None?
    ensures LinePairs(Lines(FormatFile(es)), 0, |Lines(FormatFile(es))|) == es
  {
    var lines := Lines(FormatFile(es));
    LinesOfFormatFile(es);
    LinePairsOfFormatted(es, lines, 0);
    assert es[0..] == es;
  }

  /*** GET and PUT ***/

  /**
   * A successful PUT is what the next GET of that key returns, and a GET of any other key
   * returns what it returned before.
   */
  lemma PutThenGet(entries: seq<Entry>, allowUpdate: bool, put: string, get: string)
    requires Put(entries, allowUpdate, put).reply.Done? && Parse(get).Parsed?
    ensures var r := Put(entries, allowUpdate, put).reply;
      Get(Put(entries, allowUpdate, put).entries, get) ==
        if Parse(get).key == r.key then Done(r.key, r.value) else Get(entries, get)
  {
    var k, v := Parse(put).key, Parse(put).value;
    StoreLookup(entries, allowUpdate, k, v, Parse(get).key);
  }

  /** A GET whose text after the key is longer than a value is rejected by the parser with VAL_TOO_LONG. */
  lemma GetLongTail(entries: seq<Entry>, n: nat, k: string, v: string, eol: string)
    requires ValidKey(k) && |v| > MaxValLen && !IsEol(v[|v| - 1]) && EolTail(eol)
    ensures Get(entries, Spaces(n) + k + " " + v + eol) == Failed(ValTooLong, [], U16(n + |k| + 1 + 33))
  {
    ParseValueTooLong(n, k, v, eol);
  }

  /** A PUT of a key already present is refused in strict mode and leaves the registry as it was. */
  lemma StrictPutExisting(entries: seq<Entry>, put: string)
    requires Parse(put).Parsed? && Lookup(entries, Parse(put).key).Some?
    ensures Put(entries, false, put) == PutOutcome(Failed(KeyExists, Parse(put).key, 0), entries)
  {
  }

  /** PUT keeps the registry invariant. */
  lemma PutPreservesValid(entries: seq<Entry>, allowUpdate: bool, put: string)
    requires ValidEntries(entries)
    ensures ValidEntries(Put(entries, allowUpdate, put).entries)
  {
    if Parse(put).Parsed? {
      StorePreservesValid(entries, allowUpdate, Parse(put).key, Parse(put).value);
    }
  }

  /** GET and PUT leave the registry as it is when the request does not parse. */
  lemma PutParseErrorKeeps(entries: seq<Entry>, allowUpdate: bool, put: string)
    requires Parse(put).ParseError?
    ensures Put(entries, allowUpdate, put) ==
      PutOutcome(Failed(Parse(put).code, [], Parse(put).errPos), entries)
  {
  }

  /**
   * Two PUTs of one key with values v1 and v2, then a GET of it: in strict mode the second PUT
   * is refused and the GET returns v1; with updates allowed the GET returns v2.
   */
  lemma PutPutGet(entries: seq<Entry>, allowUpdate: bool, k: string, v1: string, v2: string)
    requires ValidKey(k) && Lookup(entries, k).None?
    requires |v1| <= MaxValLen && FileValue(v1) && |v2| <= MaxValLen && FileValue(v2)
    ensures var p1 := Put(entries, allowUpdate, k + " " + v1);
      var p2 := Put(p1.entries, allowUpdate, k + " " + v2);
      && p1.reply == Done(k, v1)
      && p2.reply == (if allowUpdate then Done(k, v2) else Failed(KeyExists, k, 0))
      && Get(p2.entries, k) == Done(k, if allowUpdate then v2 else v1)
  {
    assert Spaces(0) + k + " " + v1 + [] == k + " " + v1;
    assert Spaces(0) + k + " " + v2 + [] == k + " " + v2;
    assert Spaces(0) + k + [] == k;
    ParseRoundTrip(0, k, v1, []);
    ParseRoundTrip(0, k, v2, []);
    ParseKeyOnly(0, k, []);
    var e1 := Put(entries, allowUpdate, k + " " + v1).entries;
    StoreLookup(entries, allowUpdate, k, v1, k);
    StoreLookup(e1, allowUpdate, k, v2, k);
  }
}
