/**
 * The server's request handling: the command word of a client message is matched without
 * regard to case, PUT and GET hand the rest of the message to the key registry, BYE closes
 * the session, and every other message is answered with "???". Also the port range check of
 * the command line and the diagnostics printed after loading the registry file.
 */
module Server {
  import opened Wrappers
  import opened KeyRegistryDefs
  import opened KeyParser
  import opened KeyStore
  import opened KeyRegistry

  const DefaultPort: nat := 5555
  /** Size of the buffer a reply is formatted into. */
  const WriteBufSize: nat := 256
  const DefaultRegistry: string := "capitals.txt"

  /*** Decimal formatting (%d of a non-negative value) ***/

  function DigitChar(d: nat): (c: char)
    requires d < 10
    ensures '0' <= c <= '9'
  {
    ['0', '1', '2', '3', '4', '5', '6', '7', '8', '9'][d]
  }

  function DigitValue(c: char): nat
  {
    if '0' <= c <= '9' then (c as int - '0' as int) as nat else 0
  }

  function DecimalString(n: nat): (s: string)
    ensures 1 <= |s| && forall i :: 0 <= i < |s| ==> '0' <= s[i] <= '9'
    decreases n
  {
    if n < 10 then [DigitChar(n)] else DecimalString(n / 10) + [DigitChar(n % 10)]
  }

  /** The number a string of decimal digits denotes. */
  function DecimalValue(s: string): nat
    decreases |s|
  {
    if s == [] then 0 else 10 * DecimalValue(s[..|s| - 1]) + DigitValue(s[|s| - 1])
  }

  lemma DigitRoundTrip(d: nat)
    requires d < 10
    ensures DigitValue(DigitChar(d)) == d
  {
  }

  /** Reading back what %d printed gives the number. */
  lemma {:induction false} DecimalRoundTrip(n: nat)
    ensures DecimalValue(DecimalString(n)) == n
    decreases n
  {
    var s := DecimalString(n);
    if n < 10 {
      DigitRoundTrip(n);
    } else {
      DecimalRoundTrip(n / 10);
      DigitRoundTrip(n % 10);
      assert s[..|s| - 1] == DecimalString(n / 10);
    }
  }

  /*** Replies ***/

  /**
   * createErrMsgToClient: the message for a registry error code. The key appears, in square
   * brackets, only in the not-found and already-exists messages; a code no request reports
   * gets the generic server error. The error position is not part of any message.
   */
  function ErrorText(key: string, code: Code): (s: string)
    ensures 13 <= |s| <= 60 + |key| && s[|s| - 1] == '\n'
  {
    match code
    case KeyEmpty => "Key has not" + " been provided\n"
    case KeyInvalid => "Key is invalid" + " ... keys can contain digits and letters only\n"
    case KeyTooLong => "Key is too long" + " ... max key length is " + DecimalString(MaxKeyLen) + "\n"
    case KeyNotFound => "Key [" + key + "] not found" + " in regisry\n"
    case KeyExists => "Key [" + key + "] already" + " exists, updating keys are not allowed\n"
    case ValTooLong => "Value is too long" + " ... max value length is " + DecimalString(MaxValLen) + "\n"
    case _ => "Server Error\n"
  }

  /**
   * The text sent back for a PUT request: the key and value in square brackets joined by
   * "<=", or the error message.
   */
  function PutReplyText(r: Reply): (s: string)
    ensures |s| > 0 && s[|s| - 1] == '\n'
    ensures r.Done? ==> |s| == |r.key| + |r.value| + 9 && s[0] == '[' && s[1..|r.key| + 1] == r.key
    ensures r.Done? ==> s[|r.key| + 1..|r.key| + 7] == "] <= [" && s[|r.key| + 7..|s| - 2] == r.value
    ensures r.Failed? ==> s == ErrorText(r.key, r.code)
  {
    match r
    case Done(k, v) => "[" + k + "] <= [" + v + "]\n"
    case Failed(c, k, _) => ErrorText(k, c)
  }

  /** The text sent back for a GET request: the same shape as for PUT, joined by "=>". */
  function GetReplyText(r: Reply): (s: string)
    ensures |s| > 0 && s[|s| - 1] == '\n'
    ensures r.Done? ==> |s| == |r.key| + |r.value| + 9 && s[0] == '[' && s[1..|r.key| + 1] == r.key
    ensures r.Done? ==> s[|r.key| + 1..|r.key| + 7] == "] => [" && s[|r.key| + 7..|s| - 2] == r.value
    ensures r.Failed? ==> s == ErrorText(r.key, r.code)
  {
    match r
    case Done(k, v) => "[" + k + "] => [" + v + "]\n"
    case Failed(c, k, _) => ErrorText(k, c)
  }

  /** The not-found and already-exists messages name the key in square brackets after "Key ". */
  lemma ErrorTextNamesKey(key: string, code: Code)
    requires code == KeyNotFound || code == KeyExists
    ensures var s := ErrorText(key, code);
      |s| > 7 + |key| && s[..5] == "Key [" && s[5..5 + |key|] == key && s[5 + |key|] == ']'
  {
    var s := ErrorText(key, code);
    assert s[..5] == "Key [";
    assert s[5..5 + |key|] == key;
  }

  /** The character at index 4 of a message, which tells most of them apart. */
  lemma ErrorTextMark(key: string, code: Code)
    ensures ErrorText(key, code)[4] ==
      match code
      case KeyEmpty => 'h'
      case KeyInvalid => 'i'
      case KeyTooLong => 'i'
      case KeyNotFound => '['
      case KeyExists => '['
      case ValTooLong => 'e'
      case _ => 'e'
  {
    match code
    case KeyNotFound => ErrorTextNamesKey(key, code);
    case KeyExists => ErrorTextNamesKey(key, code);
    case _ =>
  }

  /** The six codes a request can report get six different messages, whatever the key. */
  lemma ErrorTextsDistinct(key: string, c1: Code, c2: Code)
    requires c1 in {KeyEmpty, KeyInvalid, KeyTooLong, KeyNotFound, KeyExists, ValTooLong}
    requires c2 in {KeyEmpty, KeyInvalid, KeyTooLong, KeyNotFound, KeyExists, ValTooLong}
    requires c1 != c2
    ensures ErrorText(key, c1) != ErrorText(key, c2)
  {
    var s1, s2 := ErrorText(key, c1), ErrorText(key, c2);
    ErrorTextMark(key, c1);
    ErrorTextMark(key, c2);
    if {c1, c2} == {KeyNotFound, KeyExists} {
      ErrorTextNamesKey(key, c1);
      ErrorTextNamesKey(key, c2);
      assert s1[7 + |key|] != s2[7 + |key|];
    } else if {c1, c2} == {KeyInvalid, KeyTooLong} {
      assert s1[7] != s2[7];
    }
  }

  /*** Dispatch ***/

  /** tolower in the C locale. */
  function ToLower(c: char): (r: char)
    ensures 'A' <= c <= 'Z' ==> r as int == c as int + 32
    ensures !('A' <= c <= 'Z') ==> r == c
  {
    if 'A' <= c <= 'Z' then (c as int + 32) as char else c
  }

  /** The message with its first three characters lower-cased, when it has three. */
  function LowerCommand(m: string): (r: string)
    ensures |r| == |m|
    ensures |m| >= 3 ==> forall i :: 0 <= i < 3 ==> r[i] == ToLower(m[i])
    ensures forall i :: (if |m| >= 3 then 3 else 0) <= i < |m| ==> r[i] == m[i]
  {
    if |m| >= 3 then [ToLower(m[0]), ToLower(m[1]), ToLower(m[2])] + m[3..] else m
  }

  /**
   * strncmp(word, m, 3) == 0 for a three-letter command word: the first three characters of
   * the message are those of the word, one by one.
   */
  function IsCommand(m: string, word: string): (b: bool)
    requires |word| == 3
    ensures b <==> |m| >= 3 && forall i :: 0 <= i < 3 ==> m[i] == word[i]
  {
    |m| >= 3 && m[..3] == word
  }

  datatype DispatchOutcome = DispatchOutcome(written: Option<string>, closed: bool, entries: seq<Entry>)

  /**
   * processClientMessage on the message as a string: what is written back to the client
   * (nothing for BYE), whether the session is closed, and the registry afterwards.
   */
  function Dispatch(entries: seq<Entry>, allowUpdate: bool, message: string): (d: DispatchOutcome)
    ensures d.closed <==> d.written.None?
  {
    Route(entries, allowUpdate, LowerCommand(message))
  }

  /** The routing on the lower-cased message; the command's argument is the rest after it. */
  function Route(entries: seq<Entry>, allowUpdate: bool, m: string): (d: DispatchOutcome)
    ensures d.closed <==> d.written.None?
  {
    if IsCommand(m, "put") then
      var p := Put(entries, allowUpdate, m[3..]);
      DispatchOutcome(Some(PutReplyText(p.reply)), false, p.entries)
    else if IsCommand(m, "get") then
      DispatchOutcome(Some(GetReplyText(Get(entries, m[3..]))), false, entries)
    else if IsCommand(m, "bye") then
      DispatchOutcome(None, true, entries)
    else
      DispatchOutcome(Some("???\n"), false, entries)
  }

  /*** The server's state ***/

  /** Length of the C string held in s: the characters before the first NUL. */
  function CStringLength(s: string, i: nat): (n: nat)
    requires i <= |s|
    ensures i <= n <= |s| && (n == |s| || s[n] == '\0')
    ensures forall k :: i <= k < n ==> s[k] != '\0'
    decreases |s| - i
  {
    if i == |s| || s[i] == '\0' then i else CStringLength(s, i + 1)
  }

  /** The C string held in s. */
  function CString(s: string): (r: string)
    ensures r <= s && forall i :: 0 <= i < |r| ==> r[i] != '\0'
  {
    s[..CStringLength(s, 0)]
  }

  /** The server's reply buffer, and the registry it serves from. */
  class Server {
    var sendBuf: string
    const registry: Registry

    constructor (registry: Registry)
      ensures this.registry == registry && sendBuf == []
    {
      this.registry := registry;
      sendBuf := [];
    }

    /** createErrMsgToClient: format the message for a registry error into the reply buffer. */
    method CreateErrMsgToClient(key: string, code: Code, errPos: nat)
      modifies this
      ensures sendBuf == ErrorText(key, code)
    {
      sendBuf := ErrorText(key, code);
    }

    /**
     * processClientMessage: lower-case the command in the message buffer in place, run the
     * request, and leave in the reply buffer what is written back (BYE writes nothing).
     */
    method ProcessClientMessage(message: array<char>) returns (written: Option<string>, closed: bool)
      modifies this, message, registry
      ensures var d := Dispatch(old(registry.entries), registry.allowUpdate, CString(old(message[..])));
        written == d.written && closed == d.closed && registry.entries == d.entries
      ensures written.Some? ==> sendBuf == written.value
      ensures written.None? ==> sendBuf == old(sendBuf)
      ensures var c := CString(old(message[..]));
        message[..] == LowerCommand(c) + old(message[..])[|c|..]
      ensures old(registry.Valid()) ==> registry.Valid()
    {
      var messageLen := StrLen(message);
      LowerCommandInPlace(message, messageLen);
      written, closed := Respond(message[..messageLen]);
    }

    /** The request part of processClientMessage, on the message once its command is lower-cased. */
    method Respond(m: string) returns (written: Option<string>, closed: bool)
      modifies this, registry
      ensures var d := Route(old(registry.entries), registry.allowUpdate, m);
        written == d.written && closed == d.closed && registry.entries == d.entries
      ensures written.Some? ==> sendBuf == written.value
      ensures written.None? ==> sendBuf == old(sendBuf)
      ensures old(registry.Valid()) ==> registry.Valid()
    {
      if IsCommand(m, "put") {
        var reply := registry.PutKey(m[3..]);
        if reply.Done? {
          sendBuf := PutReplyText(reply);
        } else {
          CreateErrMsgToClient(reply.key, reply.code, reply.errPos);
        }
      } else if IsCommand(m, "get") {
        var reply := registry.GetKey(m[3..]);
        if reply.Done? {
          sendBuf := GetReplyText(reply);
        } else {
          CreateErrMsgToClient(reply.key, reply.code, reply.errPos);
        }
      } else if IsCommand(m, "bye") {
        return None, true;
      } else {
        sendBuf := "???\n";
      }
      return Some(sendBuf), false;
    }
  }

  /** strlen: the number of characters before the first NUL in the buffer. */
  method StrLen(message: array<char>) returns (n: nat)
    ensures n == CStringLength(message[..], 0)
  {
    n := 0;
    while n < message.Length && message[n] != '\0'
      invariant 0 <= n <= message.Length
      invariant forall k :: 0 <= k < n ==> message[k] != '\0'
    {
      n := n + 1;
    }
    CStringLengthIs(message[..], n);
  }

  /** The lowering loop: the first three characters of a message of at least three are lower-cased. */
  method LowerCommandInPlace(message: array<char>, len: nat)
    requires len <= message.Length
    modifies message
    ensures message[..] == LowerCommand(old(message[..])[..len]) + old(message[..])[len..]
  {
    if len >= 3 {
      for i := 0 to 3
        invariant forall k :: 0 <= k < i ==> message[k] == ToLower(old(message[k]))
        invariant forall k :: i <= k < message.Length ==> message[k] == old(message[k])
      {
        message[i] := ToLower(message[i]);
      }
    }
    assert message[..] == LowerCommand(old(message[..])[..len]) + old(message[..])[len..];
  }

  lemma CStringLengthIs(s: string, n: nat)
    requires n <= |s| && (n == |s| || s[n] == '\0') && forall k :: 0 <= k < n ==> s[k] != '\0'
    ensures CStringLength(s, 0) == n
  {
  }

  /*** Command line and startup ***/

  /** The -p option: a port outside 1024 .. 65535 is replaced by the default port. */
  function ClampPort(port: int): (p: nat)
    ensures 1024 <= p <= 65535
    ensures p == port <==> 1024 <= port <= 65535
    ensures !(1024 <= port <= 65535) ==> p == DefaultPort
  {
    if port < 1024 || port > 0xFFFF then DefaultPort else port
  }

  datatype StartupResult = Serve(stdout: string) | Exit(stderr: string)

  /** What main prints for the result of loading the registry, and whether it goes on to serve. */
  function StartupReport(res: Code, lineNr: nat, colNr: nat, fileName: string): (s: StartupResult)
    ensures s.Serve? <==> res == Ok
  {
    var at := "[" + DecimalString(lineNr) + "," + DecimalString(colNr) + "]\n";
    match res
    case Ok => Serve("* KVP Registry has been loaded\n")
    case ErrRegOpen => Exit("Can't open " + fileName + "\n")
    case KeyEmpty => Exit("Missing key at " + at)
    case KeyInvalid => Exit("Invalid character found at " + at)
    case KeyTooLong => Exit("Long key found at " + at)
    case ValTooLong => Exit("Long value found at " + at)
    case _ => Exit("FATAL ERROR\n")
  }

  /** main: load the registry file into the empty registry, starting from line and column 0. */
  function Startup(allowUpdate: bool, file: Option<string>, fileName: string): (s: StartupResult)
    ensures s.Serve? <==> ReadRegistry([], allowUpdate, file, 0, 0).code == Ok
    ensures s.Serve? ==> s.stdout == "* KVP Registry has been loaded\n"
  {
    var r := ReadRegistry([], allowUpdate, file, 0, 0);
    StartupReport(r.code, r.lineNr, r.errPos, fileName)
  }
}
