/**
 * What request handling and startup promise: the command word is matched without regard to
 * case, BYE alone closes the session and writes nothing, only a successful PUT changes the
 * registry, every reply fits the reply buffer, and the server starts serving exactly when
 * the registry file loaded.
 */
module ServerProperties {
  import opened Wrappers
  import opened KeyRegistryDefs
  import opened KeyParser
  import opened KeyStore
  import opened KeyRegistry
  import opened ParserProperties
  import opened Server

  lemma ToLowerIdempotent(c: char)
    ensures ToLower(ToLower(c)) == ToLower(c)
  {
  }

  /** Lower-casing the command twice is lower-casing it once. */
  lemma LowerCommandIdempotent(m: string)
    ensures LowerCommand(LowerCommand(m)) == LowerCommand(m)
  {
    if |m| >= 3 {
      ToLowerIdempotent(m[0]);
      ToLowerIdempotent(m[1]);
      ToLowerIdempotent(m[2]);
    }
  }

  /** Two command words that differ only in case lead to the same outcome. */
  lemma CommandCaseInsensitive(entries: seq<Entry>, allowUpdate: bool, w1: string, w2: string, rest: string)
    requires |w1| == 3 && |w2| == 3 && forall i :: 0 <= i < 3 ==> ToLower(w1[i]) == ToLower(w2[i])
    ensures Dispatch(entries, allowUpdate, w1 + rest) == Dispatch(entries, allowUpdate, w2 + rest)
  {
    assert LowerCommand(w1 + rest) == LowerCommand(w2 + rest);
  }

  /** "PUT", "Put", "pUt" and so on all select the PUT command. */
  lemma UpperCasePut(entries: seq<Entry>, allowUpdate: bool, rest: string)
    ensures Dispatch(entries, allowUpdate, "PUT" + rest) == Dispatch(entries, allowUpdate, "put" + rest)
    ensures Dispatch(entries, allowUpdate, "GeT" + rest) == Dispatch(entries, allowUpdate, "get" + rest)
  {
    CommandCaseInsensitive(entries, allowUpdate, "PUT", "put", rest);
    CommandCaseInsensitive(entries, allowUpdate, "GeT", "get", rest);
  }

  /** BYE, and only BYE, closes the session; it writes nothing and leaves the registry alone. */
  lemma ByeClosesSession(entries: seq<Entry>, allowUpdate: bool, message: string)
    ensures var d := Dispatch(entries, allowUpdate, message);
      && (d.closed <==> IsCommand(LowerCommand(message), "bye"))
      && (d.closed ==> d.written.None? && d.entries == entries)
  {
  }

  /** A message whose first three characters are no command, in any case, is answered with "???". */
  lemma UnknownCommand(entries: seq<Entry>, allowUpdate: bool, message: string)
    requires var m := LowerCommand(message); !IsCommand(m, "put") && !IsCommand(m, "get") && !IsCommand(m, "bye")
    ensures Dispatch(entries, allowUpdate, message) == DispatchOutcome(Some("???\n"), false, entries)
  {
  }

  /** A message shorter than a command word is answered with "???". */
  lemma ShortMessageUnknown(entries: seq<Entry>, allowUpdate: bool, message: string)
    requires |message| < 3
    ensures Dispatch(entries, allowUpdate, message) == DispatchOutcome(Some("???\n"), false, entries)
  {
  }

  /** Only a PUT that succeeded changes the registry, and it changes it as Put says. */
  lemma OnlyPutChanges(entries: seq<Entry>, allowUpdate: bool, message: string)
    ensures var d := Dispatch(entries, allowUpdate, message); var m := LowerCommand(message);
      d.entries != entries ==>
        IsCommand(m, "put") && Put(entries, allowUpdate, m[3..]).reply.Done? &&
        d.entries == Put(entries, allowUpdate, m[3..]).entries
  {
  }

  /** A failure reply names at most a key the parser accepted. */
  lemma FailedKeyShort(entries: seq<Entry>, allowUpdate: bool, str: string)
    ensures Get(entries, str).Failed? ==> |Get(entries, str).key| <= MaxKeyLen
    ensures Put(entries, allowUpdate, str).reply.Failed? ==> |Put(entries, allowUpdate, str).reply.key| <= MaxKeyLen
  {
  }

  /** Every reply to a registry that holds only valid entries fits the 256-byte reply buffer. */
  lemma ReplyFitsSendBuf(entries: seq<Entry>, allowUpdate: bool, message: string)
    requires ValidEntries(entries)
    ensures var d := Dispatch(entries, allowUpdate, message);
      d.written.Some? ==> |d.written.value| < WriteBufSize
  {
    var m := LowerCommand(message);
    if IsCommand(m, "put") || IsCommand(m, "get") {
      var str := m[3..];
      FailedKeyShort(entries, allowUpdate, str);
      var g := Get(entries, str);
      if g.Done? {
        var i := IndexOf(entries, g.key).value;
        assert ValidEntry(entries[i]);
      }
    }
  }

  /** The argument of PUT is the rest of the message after the command word. */
  lemma DispatchPut(entries: seq<Entry>, allowUpdate: bool, rest: string)
    ensures var p := Put(entries, allowUpdate, rest);
      Dispatch(entries, allowUpdate, "put" + rest) == DispatchOutcome(Some(PutReplyText(p.reply)), false, p.entries)
  {
    var m := "put" + rest;
    LowerCommandIdempotent(m);
    assert LowerCommand(m) == m;
    assert m[..3] == "put" && m[3..] == rest;
  }

  /** The argument of GET is the rest of the message after the command word. */
  lemma DispatchGet(entries: seq<Entry>, allowUpdate: bool, rest: string)
    ensures Dispatch(entries, allowUpdate, "get" + rest) ==
      DispatchOutcome(Some(GetReplyText(Get(entries, rest))), false, entries)
  {
    var m := "get" + rest;
    LowerCommandIdempotent(m);
    assert LowerCommand(m) == m;
    assert m[..3] == "get" && m[3..] == rest;
  }

  /**
   * PUT of an argument that parses to a pair the store accepts (a new key, or any key when
   * updates are allowed) stores the pair and echoes it with "<=".
   */
  lemma PutAccepted(entries: seq<Entry>, allowUpdate: bool, str: string, k: string, v: string)
    requires Parse(str) == Parsed(k, v)
    requires allowUpdate || Lookup(entries, k).None?
    ensures Dispatch(entries, allowUpdate, "put" + str) ==
      DispatchOutcome(Some("[" + k + "] <= [" + v + "]\n"), false, Store(entries, allowUpdate, k, v).entries)
  {
    assert Put(entries, allowUpdate, str) == PutOutcome(Done(k, v), Store(entries, allowUpdate, k, v).entries);
    DispatchPut(entries, allowUpdate, str);
  }

  /** No separator is needed after the command word: "PUTk v" stores k with value v. */
  lemma PutWithoutSeparator(entries: seq<Entry>, allowUpdate: bool, k: string, v: string)
    requires ValidKey(k) && |v| <= MaxValLen && (v == [] || !IsEol(v[|v| - 1]))
    requires allowUpdate || Lookup(entries, k).None?
    ensures Dispatch(entries, allowUpdate, "PUT" + (k + " " + v)) ==
      DispatchOutcome(Some("[" + k + "] <= [" + v + "]\n"), false, Store(entries, allowUpdate, k, v).entries)
  {
    assert Spaces(0) + k + " " + v + [] == k + " " + v;
    ParseRoundTrip(0, k, v, []);
    CommandCaseInsensitive(entries, allowUpdate, "PUT", "put", k + " " + v);
    PutAccepted(entries, allowUpdate, k + " " + v, k, v);
  }

  /** GET of an argument that parses to a stored key answers with its value; a value in the argument is ignored. */
  lemma GetStored(entries: seq<Entry>, allowUpdate: bool, str: string, k: string)
    requires Parse(str).Parsed? && Parse(str).key == k && Lookup(entries, k).Some?
    ensures Dispatch(entries, allowUpdate, "get" + str) ==
      DispatchOutcome(Some("[" + k + "] => [" + Lookup(entries, k).value + "]\n"), false, entries)
  {
    DispatchGet(entries, allowUpdate, str);
  }

  /** GET of an argument that parses to a key that is not stored answers with the not-found message naming it. */
  lemma GetMissing(entries: seq<Entry>, allowUpdate: bool, str: string, k: string)
    requires Parse(str).Parsed? && Parse(str).key == k && Lookup(entries, k).None?
    ensures Dispatch(entries, allowUpdate, "get" + str) ==
      DispatchOutcome(Some(ErrorText(k, KeyNotFound)), false, entries)
  {
    DispatchGet(entries, allowUpdate, str);
  }

  /*** Startup ***/

  /**
   * The server goes on to serve exactly when the registry file loaded; a file that does not
   * open names the file; the defensive "FATAL ERROR" branch is never reached.
   */
  lemma StartupServesIffLoaded(allowUpdate: bool, file: Option<string>, fileName: string)
    ensures var s := Startup(allowUpdate, file, fileName);
      && (s.Serve? <==> ReadRegistry([], allowUpdate, file, 0, 0).code == Ok)
      && (file.None? ==> s == Exit("Can't open " + fileName + "\n"))
      && s != Exit("FATAL ERROR\n")
  {
    var r := ReadRegistry([], allowUpdate, file, 0, 0);
    var s := Startup(allowUpdate, file, fileName);
    if s.Exit? {
      assert s.stderr[0] != 'F';
    }
  }

  /** A file whose first line starts with a tab stops the load at line 1, column 1 with KEY_INVALID. */
  lemma StartupReportsPosition(allowUpdate: bool, fileName: string)
    ensures Startup(allowUpdate, Some("\tx\n"), fileName) == Exit("Invalid character found at [1,1]\n")
  {
    TabLineLoad(allowUpdate);
    assert DecimalString(1) == "1";
  }

  /** Loading the file "\tx\n" fails on its first line with KEY_INVALID at the tab. */
  lemma TabLineLoad(allowUpdate: bool)
    ensures ReadRegistry([], allowUpdate, Some("\tx\n"), 0, 0) == LoadOutcome(KeyInvalid, 1, 1, [])
  {
    var lines := Lines("\tx\n");
    assert LineEnd("\tx\n", 0) == 3;
    assert "\tx\n"[..3] == "\tx\n" && "\tx\n"[3..] == [];
    assert lines == ["\tx\n"];
    ParseInvalidChar(0, [], '\t', "x\n");
    assert Spaces(0) + [] + ['\t'] + "x\n" == "\tx\n";
  }
}
