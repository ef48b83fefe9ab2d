/**
 * The key registry module: loading the registry file line by line into the store, and the
 * two request operations GET and PUT that parse a client string and then read or write
 * the store. The store is the `Registry` object; what each operation does to it is given
 * by the functions `ReadRegistry`, `Get` and `Put` on entry sequences.
 */
module KeyRegistry {
  import opened Wrappers
  import opened KeyRegistryDefs
  import opened KeyParser
  import opened KeyStore

  /*** Registry file contents as lines ***/

  /** Index just past the first '\n' at or after i, or |s|: where getline ends a line. */
  function LineEnd(s: string, i: nat): (j: nat)
    requires i <= |s|
    ensures i <= j <= |s|
    ensures forall k :: i <= k && k + 1 < j ==> s[k] != '\n'
    ensures i < |s| ==> i < j && (s[j - 1] == '\n' || j == |s|)
    ensures i < |s| && j < |s| ==> s[j - 1] == '\n'
    decreases |s| - i
  {
    if i == |s| then i
    else if s[i] == '\n' then i + 1
    else LineEnd(s, i + 1)
  }

  /** A line ends just past its first '\n'. */
  lemma LineEndIs(s: string, i: nat, j: nat)
    requires i < j <= |s| && s[j - 1] == '\n' && forall k :: i <= k < j - 1 ==> s[k] != '\n'
    ensures LineEnd(s, i) == j
  {
  }

  function Flatten(ls: seq<string>): string
    decreases |ls|
  {
    if ls == [] then [] else ls[0] + Flatten(ls[1..])
  }

  /** The lines getline returns for a file's contents; together they are the contents. */
  function Lines(content: string): (ls: seq<string>)
    ensures Flatten(ls) == content
    decreases |content|
  {
    if content == [] then []
    else
      var j := LineEnd(content, 0);
      [content[..j]] + Lines(content[j..])
  }

  /**
   * The shape of what getline returns: each line nonempty, holding no '\n' but as its last
   * character, and every line but the last ending in '\n'.
   */
  predicate GetlineLines(ls: seq<string>)
  {
    && (forall i :: 0 <= i < |ls| ==> |ls[i]| > 0)
    && (forall i, k :: 0 <= i < |ls| && 0 <= k < |ls[i]| - 1 ==> ls[i][k] != '\n')
    && (forall i :: 0 <= i < |ls| - 1 ==> ls[i][|ls[i]| - 1] == '\n')
  }

  lemma {:induction false} LinesShape(content: string)
    ensures GetlineLines(Lines(content))
    decreases |content|
  {
    if content != [] {
      var j := LineEnd(content, 0);
      LinesShape(content[j..]);
      var rest := Lines(content[j..]);
      var ls := [content[..j]] + rest;
      assert Lines(content) == ls;
      assert forall i :: 1 <= i < |ls| ==> ls[i] == rest[i - 1];
      if j < |content| {
        assert content[j..] != [];
        assert rest != [];
      }
    }
  }

  /*** Loading ***/

  /** An empty line: the first character read is '\r' or '\n'. */
  predicate IsBlankLine(line: string)
  {
    |line| > 0 && IsEol(line[0])
  }

  datatype LoadOutcome = LoadOutcome(code: Code, lineNr: nat, errPos: nat, entries: seq<Entry>)

  /**
   * The loading loop from line i on: blank lines are skipped, a line that does not parse stops
   * the load and reports its 1-based number (a 16-bit counter) with the parser's code and
   * position, and a parsed line is stored, its store result ignored, and clears the reported
   * position.
   */
  function LoadFrom(entries: seq<Entry>, allowUpdate: bool, lines: seq<string>, i: nat,
                    lineNr: nat, errPos: nat): (r: LoadOutcome)
    requires i <= |lines|
    ensures r.code in {Ok, KeyEmpty, KeyInvalid, KeyTooLong, ValTooLong}
    ensures r.code != Ok ==> r.lineNr < 0x1_0000 && r.errPos < 0x1_0000
    decreases |lines| - i
  {
    if i == |lines| then LoadOutcome(Ok, lineNr, errPos, entries)
    else if IsBlankLine(lines[i]) then LoadFrom(entries, allowUpdate, lines, i + 1, lineNr, errPos)
    else match Parse(lines[i])
      case ParseError(c, p) => LoadOutcome(c, U16(i + 1), p, entries)
      case Parsed(k, v) =>
        LoadFrom(Store(entries, allowUpdate, k, v).entries, allowUpdate, lines, i + 1, 0, 0)
  }

  /**
   * KREG_ReadRegistryFile on a file that may not open (None) or has the given contents;
   * lineNr and errPos are the caller's variables, written only as loading demands.
   */
  function ReadRegistry(entries: seq<Entry>, allowUpdate: bool, file: Option<string>,
                        lineNr: nat, errPos: nat): (r: LoadOutcome)
    ensures r.code in {Ok, ErrRegOpen, KeyEmpty, KeyInvalid, KeyTooLong, ValTooLong}
    ensures r.code == ErrRegOpen <==> file.None?
    ensures file.None? ==> r == LoadOutcome(ErrRegOpen, lineNr, errPos, entries)
  {
    match file
    case None => LoadOutcome(ErrRegOpen, lineNr, errPos, entries)
    case Some(content) => LoadFrom(entries, allowUpdate, Lines(content), 0, lineNr, errPos)
  }

  /*** Requests ***/

  /**
   * What a request reports back: success with the key and value, or a failure code with the
   * parsed key (empty when the parse failed) and the parser's error position (0 when the
   * parse succeeded).
   */
  datatype Reply =
    | Done(key: string, value: string)
    | Failed(code: Code, key: string, errPos: nat)

  /** KREG_GetKey: parse the request, then look the key up; a value in the request is ignored. */
  function Get(entries: seq<Entry>, str: string): (r: Reply)
    ensures r.Failed? ==> r.code in {KeyEmpty, KeyInvalid, KeyTooLong, ValTooLong, KeyNotFound}
    ensures r.Failed? && r.code == KeyNotFound <==>
      Parse(str).Parsed? && Lookup(entries, Parse(str).key).None?
    ensures r.Failed? && r.code == KeyNotFound ==> r.key == Parse(str).key
    ensures r.Done? <==> Parse(str).Parsed? && Lookup(entries, Parse(str).key).Some?
    ensures r.Done? ==> r.key == Parse(str).key && Lookup(entries, r.key) == Some(r.value)
    ensures Parse(str).ParseError? ==> r == Failed(Parse(str).code, [], Parse(str).errPos)
  {
    match Parse(str)
    case ParseError(c, p) => Failed(c, [], p)
    case Parsed(k, _) =>
      match Lookup(entries, k)
      case Some(v) => Done(k, v)
      case None => Failed(KeyNotFound, k, 0)
  }

  datatype PutOutcome = PutOutcome(reply: Reply, entries: seq<Entry>)

  /** KREG_PutKey: parse the request, then store the pair. */
  function Put(entries: seq<Entry>, allowUpdate: bool, str: string): (r: PutOutcome)
    ensures r.reply.Failed? ==> r.reply.code in {KeyEmpty, KeyInvalid, KeyTooLong, ValTooLong, KeyExists}
    ensures r.reply.Failed? && r.reply.code == KeyExists <==>
      !allowUpdate && Parse(str).Parsed? && Lookup(entries, Parse(str).key).Some?
    ensures r.reply.Done? <==> Parse(str).Parsed? && (allowUpdate || Lookup(entries, Parse(str).key).None?)
    ensures r.reply.Done? ==> r.reply == Done(Parse(str).key, Parse(str).value)
    ensures r.reply.Failed? ==> r.entries == entries
  {
    match Parse(str)
    case ParseError(c, p) => PutOutcome(Failed(c, [], p), entries)
    case Parsed(k, v) =>
      var s := Store(entries, allowUpdate, k, v);
      if s.code == Ok then PutOutcome(Done(k, v), s.entries)
      else PutOutcome(Failed(s.code, k, 0), entries)
  }

  /*** The registry object ***/

  /** The module's linked list of pairs, kept as the sequence of its entries from head to tail. */
  class Registry {
    var entries: seq<Entry>
    /** KREG_ALLOW_UPDATE, fixed when the program is built. */
    const allowUpdate: bool

    ghost predicate Valid()
      reads this
    {
      ValidEntries(entries)
    }

    constructor (fsAllowUpdateDefined: bool)
      ensures entries == [] && allowUpdate == UpdatesAllowed(fsAllowUpdateDefined)
      ensures Valid()
    {
      entries := [];
      allowUpdate := UpdatesAllowed(fsAllowUpdateDefined);
    }

    /** searchKey: walk the list from the head to the first entry whose key is key. */
    method SearchKey(key: string) returns (r: Option<nat>)
      ensures r == IndexOf(entries, key)
    {
      var i := 0;
      while i < |entries|
        invariant 0 <= i <= |entries|
        invariant forall k :: 0 <= k < i ==> entries[k].key != key
      {
        if entries[i].key == key {
          IndexOfIs(entries, key, Some(i));
          return Some(i);
        }
        i := i + 1;
      }
      IndexOfIs(entries, key, None);
      return None;
    }

    /** readKey: the value of key, or KEY_NOT_FOUND. */
    method ReadKey(key: string) returns (code: Code, value: string)
      ensures code == Ok || code == KeyNotFound
      ensures code == Ok <==> Lookup(entries, key).Some?
      ensures code == Ok ==> Lookup(entries, key) == Some(value)
    {
      var found := SearchKey(key);
      match found
      case Some(i) =>
        code, value := Ok, entries[i].value;
      case None =>
        code, value := KeyNotFound, [];
    }

    /** storeKey: overwrite or reject an existing key, append a new one at the tail. */
    method StoreKey(key: string, value: string) returns (code: Code)
      modifies this
      ensures var s := Store(old(entries), allowUpdate, key, value);
        code == s.code && entries == s.entries
      ensures old(Valid()) && ValidEntry(Entry(key, value)) ==> Valid()
    {
      if old(Valid()) && ValidEntry(Entry(key, value)) {
        StorePreservesValid(entries, allowUpdate, key, value);
      }
      code := Ok;
      var found := SearchKey(key);
      match found
      case Some(i) =>
        if !allowUpdate {
          code := KeyExists;
        } else {
          entries := entries[i := Entry(key, value)];
        }
      case None =>
        entries := entries + [Entry(key, value)];
    }

    /**
     * KREG_ReadRegistryFile: read the file line by line, counting lines in 16 bits, skip
     * blank lines, stop at the first line that does not parse and store every other one.
     */
    method ReadRegistryFile(file: Option<string>, lineNrIn: nat, errPosIn: nat)
      returns (code: Code, lineNr: nat, errPos: nat)
      modifies this
      ensures var r := ReadRegistry(old(entries), allowUpdate, file, lineNrIn, errPosIn);
        code == r.code && lineNr == r.lineNr && errPos == r.errPos && entries == r.entries
      ensures old(Valid()) ==> Valid()
    {
      lineNr, errPos := lineNrIn, errPosIn;
      if file.None? {
        return ErrRegOpen, lineNr, errPos;
      }
      var lines := Lines(file.value);
      ghost var goal := LoadFrom(entries, allowUpdate, lines, 0, lineNr, errPos);
      var lineCnt := 0;
      var i := 0;
      while i < |lines|
        invariant 0 <= i <= |lines| && lineCnt == U16(i)
        invariant LoadFrom(entries, allowUpdate, lines, i, lineNr, errPos) == goal
        invariant old(Valid()) ==> Valid()
      {
        ghost var step := LoadFrom(entries, allowUpdate, lines, i, lineNr, errPos);
        var line := lines[i];
        lineCnt := U16(lineCnt + 1);
        i := i + 1;
        if !IsBlankLine(line) {
          var res := ParseKeyValue(line, false);
          match res
          case ParseError(c, p) =>
            assert step == LoadOutcome(c, lineCnt, p, entries);
            return c, lineCnt, p;
          case Parsed(k, v) =>
            assert step == LoadFrom(Store(entries, allowUpdate, k, v).entries, allowUpdate, lines, i, 0, 0);
            lineNr, errPos := 0, 0;
            var stored := StoreKey(k, v);
        } else {
          assert step == LoadFrom(entries, allowUpdate, lines, i, lineNr, errPos);
        }
      }
      code := Ok;
    }

    /** KREG_GetKey. */
    method GetKey(str: string) returns (reply: Reply)
      ensures reply == Get(entries, str)
    {
      var res := ParseKeyValue(str, false);
      match res
      case ParseError(c, p) =>
        reply := Failed(c, [], p);
      case Parsed(k, _) =>
        var code, value := ReadKey(k);
        reply := if code == Ok then Done(k, value) else Failed(code, k, 0);
    }

    /** KREG_PutKey. */
    method PutKey(str: string) returns (reply: Reply)
      modifies this
      ensures var p := Put(old(entries), allowUpdate, str);
        reply == p.reply && entries == p.entries
      ensures old(Valid()) ==> Valid()
    {
      var res := ParseKeyValue(str, false);
      match res
      case ParseError(c, p) =>
        reply := Failed(c, [], p);
      case Parsed(k, v) =>
        var code := StoreKey(k, v);
        reply := if code == Ok then Done(k, v) else Failed(code, k, 0);
    }
  }
}
