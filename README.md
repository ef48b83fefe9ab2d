# kvpdemo key-value registry, modelled in Dafny

kvpdemo is a small TCP key-value server written in C. At startup it loads a registry file of
`key value` lines into an in-memory list. Clients then send `PUT key value`, `GET key` and
`BYE` messages: the command word is matched without regard to case, and the server answers
each message with one line.

This project models the core of that program:

- **Result codes and policy** (`KeyRegistryDefs`, from `src/keyregistry.h`). The eight result
  codes and their numeric values, the 16-character key limit and the 32-character value limit,
  and the compile-time switch that decides whether an existing key may be overwritten.
- **The line parser** (`KeyParser`, `parseKeyValue`). It handles `[spaces] KEY [' ' VALUE]` with
  up to two trailing `\r`/`\n`, and reports errors with 1-based positions in the line as given.
  These positions are kept in 16 bits. `ParseLine` is the specification function. Its switch
  `lengthWraps` selects the C's 8-bit value length (`ParseAsWritten`) or the exact length
  (`Parse`, the corrected parser that the rest of the model uses). The method `ParseKeyValue`
  carries out the C loops, takes the same switch, and is proved equal to `ParseLine`.
- **The store** (`KeyStore`, `searchKey`, `readKey`, `storeKey`). An insertion-ordered sequence
  of entries, unique by exact key. In strict mode a duplicate key is rejected with `KEY_EXISTS`;
  otherwise its value is replaced in place.
- **The registry module** (`KeyRegistry`). Loading a registry file line by line
  (`KREG_ReadRegistryFile`) and the two request operations `KREG_GetKey` and `KREG_PutKey`.
  Each is a function on entry sequences, and a method of the `Registry` class that updates its
  `entries` field and is proved equal to that function.
- **The server's request handling** (`Server`, from `src/server.c`). `processClientMessage`
  lower-cases the command in the message buffer in place and routes the message to PUT, GET,
  BYE or `???`. `createErrMsgToClient` fills the reply buffer. Also covered: the `-p` port range
  check, and the diagnostics `main` prints after loading the registry.

The properties are proved in `ParserProperties`, `RegistryProperties` and `ServerProperties`:

- round trips: a formatted line parses back; a formatted registry file loads back;
- error positions;
- map semantics of the store;
- first-wins and last-wins loading;
- case-insensitive routing;
- replies that fit the 256-byte reply buffer.

I/O is replaced by parameters, and nothing in the model reads a file or opens a socket:

- the registry file is passed as its contents, or `None` when it cannot be opened;
- a client message is passed as the character buffer read from the socket;
- what would be written back to the client is returned.

Two places where the code and its own comments disagree:

- **The default policy.** The comment above `KREG_ALLOW_UPDATE` says updates are enabled when
  `FS_ALLOW_UPDATE` is not defined. The macro does the opposite: the registry is strict unless
  `FS_ALLOW_UPDATE` is defined. The model follows the macro (`UpdatesAllowedIffDefined`).
- **The return-value lists.** The doc comments in `keyregistry.h` do not match what the code
  returns. The model follows the code.
  - `KREG_ReadRegistryFile` (lines 39-47) can also return `KREG_KEY_EMPTY`.
  - `KREG_GetKey` (lines 50-58) can also return `KREG_VAL_TOO_LONG`.
  - `KREG_PutKey` (lines 60-67) can also return `KREG_KEY_EMPTY` and `KREG_VAL_TOO_LONG`.
    Its list names `KREG_ERR_KEY_EXISTS`, which is not defined; the code it returns is
    `KREG_KEY_EXISTS`.

## Model

| member | source | states |
|---|---|---|
| KeyRegistryDefs.CodeValue | src/keyregistry.h:24-33 | every code has a value in 0 .. 7, and only OK has value 0 |
| KeyRegistryDefs.CodeOf | src/keyregistry.h:24-33 | exactly the values 0 .. 7 decode to a code, and the decoded code has that value |
| KeyRegistryDefs.CodeValueRoundTrip | src/keyregistry.h:24-33 | the eight codes have eight distinct values: decoding a code's value gives the code back |
| KeyRegistryDefs.AllowUpdateSwitch | src/keyregistry.h:18-22 | the switch is FS_ENABLED or FS_DISABLED |
| KeyRegistryDefs.UpdatesAllowedIffDefined | src/keyregistry.h:18-22 | updates are allowed if and only if FS_ALLOW_UPDATE is defined; otherwise the registry is strict |
| KeyRegistryDefs.U16 | src/keyregistry.c:291-296 | a uint16_t holds a value below 65536, and holds every smaller value unchanged |
| KeyParser.LeadingSpaces | src/keyregistry.c:171-176 | the count of leading characters that are ' ', and no more (a tab stops it) |
| KeyParser.TrimmedLength | src/keyregistry.c:178-186 | removing the line terminators never lengthens the line |
| KeyParser.ParseLine | src/keyregistry.c:162-269 | a successful parse has a key of 1 .. 16 letters or digits and a value of at most 32 characters; a failure is KEY_EMPTY, KEY_INVALID, KEY_TOO_LONG or VAL_TOO_LONG, with a 16-bit position |
| KeyParser.ParseTrimmed | src/keyregistry.c:188-268 | the same guarantees for the key loop and value split on the trimmed line |
| KeyParser.ParseAsWritten | src/keyregistry.c:162-269 | the parser with the C's 8-bit value length also yields only valid keys and values of at most 32 characters, or one of the four parse error codes |
| KeyParser.ParseKeyValue | src/keyregistry.c:162-269 | the leading-space loop, the two trailing-terminator rounds and the key loop compute exactly ParseLine(line, lengthWraps); with lengthWraps the value length is held in 8 bits as in the C |
| KeyParser.ScanKeyValue | src/keyregistry.c:188-268 | the key loop and the value length check, with the value length in 8 bits or exact, compute exactly the parse of the trimmed line |
| ParserProperties.TrimmedLengthOf | src/keyregistry.c:178-186 | a line made of body plus at most two '\r'/'\n' is trimmed to exactly the body |
| ParserProperties.TrimFacts | src/keyregistry.c:178-186 | trimming removes at most two characters, each '\r' or '\n'; if it removed fewer than two, what is left does not end in one |
| ParserProperties.ParseKeyOnly | src/keyregistry.c:220-235 | a key alone, indented or not and with or without a line ending, parses to that key with an empty value |
| ParserProperties.ParseLineKeyValue | src/keyregistry.c:247-268 | "key value" parses to the key and the value verbatim (spaces included), or fails with VAL_TOO_LONG at the separator plus 33, depending on the value length the parser holds |
| ParserProperties.ParseRoundTrip | src/keyregistry.c:145-146 | formatting a valid key and a value of at most 32 characters as an indented, terminated line and parsing it gives them back |
| ParserProperties.ParseValueTooLong | src/keyregistry.c:250-256 | a value longer than 32 characters gives VAL_TOO_LONG at the position of its 33rd character |
| ParserProperties.ParseBlank | src/keyregistry.c:221-228 | empty or spaces-only input, terminated or not, gives KEY_EMPTY at the position after the spaces |
| ParserProperties.ParseKeyTooLong | src/keyregistry.c:196-205 | a 17th letter or digit gives KEY_TOO_LONG at its own position, leading spaces counted |
| ParserProperties.ParseInvalidChar | src/keyregistry.c:236-241 | a key character that is none of letter, digit, space, NUL or line end gives KEY_INVALID at its own position |
| ParserProperties.ParseTabAfterKey | src/keyregistry.c:171-176 | a tab is not skipped as a blank: after a key it is an invalid key character |
| ParserProperties.ParsedShape | src/keyregistry.c:145-146 | converse of the round trip: a parsed key sits right after the leading spaces, and a non-empty value sits after one space and is followed only by a stripped ending |
| ParserProperties.ParseAsWrittenAgreesOnShortLines | src/keyregistry.c:250-252 | on lines of at most 257 characters the 8-bit value length equals the exact one, so the parser as written and the corrected parser agree |
| ParserProperties.ParseAsWrittenAcceptsOverlongValue | src/keyregistry.c:250-256 | "k " followed by 256 characters is accepted as key k with an empty value as written, where the corrected parser reports VAL_TOO_LONG at 35 |
| KeyStore.IndexFrom | src/keyregistry.c:52-66 | the first index at or after i holding the key; None exactly when no entry from i on holds it |
| KeyStore.Lookup | src/keyregistry.c:76-90 | None exactly when no entry has the key (exact, case-sensitive comparison); with unique keys, the value of the entry that has it |
| KeyStore.Store | src/keyregistry.c:100-136 | the result is OK or KEY_EXISTS, and KEY_EXISTS exactly when updates are disabled and the key is present |
| KeyStore.StoreShape | src/keyregistry.c:100-136 | a store grows the list by one exactly for a new key, which goes at the tail; it keeps every position's key, leaves entries of other keys unchanged, and changes nothing when rejected |
| KeyStore.StoreLookup | src/keyregistry.c:100-136 | after a store the key holds the new value if the store succeeded, the old one otherwise; every other key keeps its value |
| KeyStore.StorePreservesValid | src/keyregistry.c:100-136 | storing a valid pair keeps the keys unique and every entry valid |
| KeyStore.LastValue | src/keyregistry.c:107-110 | None exactly when no pair has the key |
| KeyStore.StoreAllStrict | src/keyregistry.c:103-106 | in strict mode, after a run of stores a present key keeps its value and any other key holds the value of its first occurrence |
| KeyStore.StoreAllUpdate | src/keyregistry.c:107-110 | with updates allowed, after a run of stores a key holds the value of its last occurrence, or its old value if it does not occur |
| KeyStore.StoreAllFresh | src/keyregistry.c:112-133 | stores of distinct new keys append them in order |
| KeyStore.StoreAllPreservesValid | src/keyregistry.c:100-136 | a run of stores of valid pairs keeps the registry invariant |
| KeyRegistry.LineEnd | src/keyregistry.c:306 | where getline ends a line: just past the first '\n', or at the end of the contents |
| KeyRegistry.Lines | src/keyregistry.c:306 | the lines read one after the other are exactly the file's contents |
| KeyRegistry.LinesShape | src/keyregistry.c:306 | every line is non-empty, holds '\n' only as its last character, and every line but the last ends in '\n' |
| KeyRegistry.LoadFrom | src/keyregistry.c:306-341 | the load result is OK or a parse error code; a failure reports a 16-bit line number and position |
| KeyRegistry.ReadRegistry | src/keyregistry.c:291-347 | ERR_REG_OPEN exactly when the file does not open, in which case nothing else changes; otherwise the result is OK or a parse error code |
| KeyRegistry.Get | src/keyregistry.c:361-371 | a parse failure is passed on with its code and position; otherwise DONE with the stored value exactly when the parsed key is present, KEY_NOT_FOUND naming the key exactly when it is absent; a value in the request is ignored |
| KeyRegistry.Put | src/keyregistry.c:386-396 | DONE with the parsed pair exactly when the parse succeeds and the store accepts it; KEY_EXISTS exactly in strict mode for a present key; every failure leaves the entries unchanged |
| KeyRegistry.Registry.constructor | src/keyregistry.h:18-22 | the list starts empty, with the update policy the build switch gives |
| KeyRegistry.Registry.SearchKey | src/keyregistry.c:52-66 | the walk from the head returns the first index holding the key, or None |
| KeyRegistry.Registry.ReadKey | src/keyregistry.c:76-90 | OK with the key's value exactly when the key is present, KEY_NOT_FOUND otherwise |
| KeyRegistry.Registry.StoreKey | src/keyregistry.c:100-136 | the new list and the result are those of Store on the old list, and the registry invariant is kept |
| KeyRegistry.Registry.ReadRegistryFile | src/keyregistry.c:291-347 | the line loop with its 16-bit counter computes the result, line number, position and new list that ReadRegistry gives, and keeps the registry invariant |
| KeyRegistry.Registry.GetKey | src/keyregistry.c:361-371 | the reply is Get on the current list |
| KeyRegistry.Registry.PutKey | src/keyregistry.c:386-396 | the reply and the new list are Put on the old list, and the registry invariant is kept |
| RegistryProperties.FirstBadLine | src/keyregistry.c:310-324 | the first line from i on that is neither blank nor accepted by the parser, and no such line before it |
| RegistryProperties.LoadFromClean | src/keyregistry.c:306-346 | a load without a bad line succeeds, having stored every parsed line in file order; the line number and position stay as given only if no line was stored, otherwise they are 0 |
| RegistryProperties.LoadFromBad | src/keyregistry.c:316-324 | a load stops at its first bad line with that line's parse code, its 1-based number (blank lines counted) and the parser's position, keeping the pairs stored from the lines before it |
| RegistryProperties.SpacesOnlyLineIsBad | src/keyregistry.c:310 | a line of spaces is not skipped as blank; it stops the load with KEY_EMPTY after the spaces |
| RegistryProperties.LoadIgnoresDuplicates | src/keyregistry.c:333-334 | a load never fails with KEY_EXISTS: the store's result is ignored |
| RegistryProperties.LinePairsValid | src/keyregistry.c:316-334 | every pair a load stores is a valid entry |
| RegistryProperties.LoadPreservesValid | src/keyregistry.c:291-347 | loading keeps the keys unique and every entry valid |
| RegistryProperties.LoadStrictFirstWins | src/keyregistry.c:333-334 | in strict mode a key new to the registry holds the value of its first line in the file |
| RegistryProperties.LoadUpdateLastWins | src/keyregistry.c:333-334 | with updates allowed a key holds the value of its last line in the file |
| RegistryProperties.FormatLineFacts | src/keyregistry.c:306-316 | the written line of an entry ends at its own '\n', is not blank and parses back to the entry |
| RegistryProperties.LinesOfFormatFile | src/keyregistry.c:306 | splitting a written file gives back one line per entry |
| RegistryProperties.LinePairsOfFormatted | src/keyregistry.c:306-334 | the lines of a written file hold no bad line and give back the entries in order |
| RegistryProperties.FormattedLines | src/keyregistry.c:306-334 | the same for a whole written file |
| RegistryProperties.LoadFormattedFile | src/keyregistry.c:291-347 | round trip: a file of "key value" lines written from a valid registry, loaded into an empty registry, succeeds and rebuilds exactly those entries in order |
| RegistryProperties.PutThenGet | src/keyregistry.c:361-396 | after a successful PUT a GET of that key returns the new value, and a GET of any other key returns what it returned before |
| RegistryProperties.GetLongTail | src/keyregistry.c:361-371 | a GET whose text after the key is longer than 32 characters fails with VAL_TOO_LONG |
| RegistryProperties.StrictPutExisting | src/keyregistry.c:386-396 | in strict mode a PUT of a present key fails with KEY_EXISTS naming the key and leaves the registry unchanged |
| RegistryProperties.PutPreservesValid | src/keyregistry.c:386-396 | PUT keeps the registry invariant |
| RegistryProperties.PutParseErrorKeeps | src/keyregistry.c:390-395 | a PUT that does not parse reports the parser's code and position and leaves the registry unchanged |
| RegistryProperties.PutPutGet | src/keyregistry.c:100-136 | two PUTs of one key, then a GET of it: in strict mode the second PUT is refused and the GET returns the first value; with updates allowed it returns the second |
| Server.DigitChar | src/server.c:90 | a digit value is printed as a character '0' .. '9' |
| Server.DecimalString | src/server.c:90 | %d prints at least one character, all of them decimal digits |
| Server.DecimalRoundTrip | src/server.c:90 | reading back the digits %d printed gives the number |
| Server.ErrorText | src/server.c:79-105 | every error message ends in '\n' and is at most 60 characters plus the key |
| Server.ErrorTextNamesKey | src/server.c:92-97 | the KEY_NOT_FOUND and KEY_EXISTS messages name the key in square brackets after "Key " |
| Server.ErrorTextMark | src/server.c:79-105 | the character at index 4 of each message, a function of the code alone |
| Server.ErrorTextsDistinct | src/server.c:79-105 | the six codes a request can report get six different messages, whatever the key |
| Server.PutReplyText | src/server.c:145-152 | a successful PUT is echoed as "[", the key, "] <= [", the value and "]\n", nine characters more than key and value; a failure gets the message for its code |
| Server.GetReplyText | src/server.c:162-169 | a successful GET is answered as "[", the key, "] => [", the value and "]\n"; a failure gets the message for its code |
| Server.IsCommand | src/server.c:138 | strncmp of the three-letter word: the message has at least three characters and they are the word's, one by one |
| Server.ToLower | src/server.c:133 | tolower maps 'A' .. 'Z' to 'a' .. 'z' and leaves every other character alone |
| Server.LowerCommand | src/server.c:128-135 | only the first three characters are lower-cased, and only when the message has at least three |
| Server.Dispatch | src/server.c:124-183 | nothing is written exactly when the session is closed: every message but BYE gets exactly one reply |
| Server.Route | src/server.c:137-182 | the same for the routing of the lower-cased message |
| Server.CStringLength | src/server.c:126 | strlen: the index of the first NUL from i on, or the buffer's end |
| Server.CString | src/server.c:126 | the C string in a buffer is a prefix of it holding no NUL |
| Server.Server.constructor | src/server.c:33 | the reply buffer starts empty, serving the given registry |
| Server.Server.CreateErrMsgToClient | src/server.c:79-105 | the reply buffer holds the message for the code |
| Server.Server.ProcessClientMessage | src/server.c:124-183 | the message buffer's command is lower-cased in place and the rest is kept; the reply, the session state and the new registry are Dispatch of the message; a written reply is what the reply buffer holds; the registry invariant is kept |
| Server.Server.Respond | src/server.c:137-182 | the PUT/GET/BYE/other branches compute Route of the lower-cased message, fill the reply buffer with what is written, and keep the registry invariant |
| Server.StrLen | src/server.c:126 | the loop counts the characters before the first NUL |
| Server.LowerCommandInPlace | src/server.c:128-135 | the for loop leaves the buffer holding LowerCommand of the first len characters, followed by the rest unchanged |
| Server.CStringLengthIs | src/server.c:126 | the first NUL's index is determined by where the NULs are |
| Server.ClampPort | src/server.c:210-219 | a port in 1024 .. 65535 is used as given, and any other port becomes 5555 |
| Server.StartupReport | src/server.c:437-474 | the server goes on to serve exactly when loading returned OK |
| Server.Startup | src/server.c:430-440 | main loads the registry file into the empty registry with line and column 0; it serves exactly when that load returns OK, and then prints that the registry has been loaded |
| ServerProperties.ToLowerIdempotent | src/server.c:133 | lower-casing twice is lower-casing once |
| ServerProperties.LowerCommandIdempotent | src/server.c:128-135 | lower-casing the command twice is lower-casing it once |
| ServerProperties.CommandCaseInsensitive | src/server.c:128-135 | two command words that differ only in case lead to the same outcome |
| ServerProperties.UpperCasePut | src/server.c:128-155 | "PUT" acts like "put" and "GeT" like "get" |
| ServerProperties.ByeClosesSession | src/server.c:171-176 | the session is closed exactly for a BYE prefix, and BYE writes nothing and leaves the registry unchanged |
| ServerProperties.UnknownCommand | src/server.c:177-180 | a message that starts with no command, in any case, is answered with exactly "???\n" and leaves the registry unchanged |
| ServerProperties.ShortMessageUnknown | src/server.c:129-180 | a message shorter than three characters is answered with "???\n" |
| ServerProperties.OnlyPutChanges | src/server.c:137-170 | the registry changes only by a successful PUT, and then as Put says |
| ServerProperties.FailedKeyShort | src/server.c:151-168 | a failure reply names at most a 16-character key |
| ServerProperties.ReplyFitsSendBuf | src/server.c:24 | for a registry of valid entries every reply is shorter than the 256-character reply buffer |
| ServerProperties.DispatchPut | src/server.c:137-153 | PUT passes everything after the three-character command to KREG_PutKey and writes its reply text |
| ServerProperties.DispatchGet | src/server.c:154-170 | GET passes everything after the three-character command to KREG_GetKey and writes its reply text, leaving the registry unchanged |
| ServerProperties.PutAccepted | src/server.c:145-148 | a PUT the store accepts is answered with exactly "[key] <= [value]\n", and the pair is stored |
| ServerProperties.PutWithoutSeparator | src/server.c:138-145 | no space is needed after the command word: "PUTk v" stores k with value v |
| ServerProperties.GetStored | src/server.c:162-165 | a GET of a stored key is answered with exactly "[key] => [value]\n" with the stored value |
| ServerProperties.GetMissing | src/server.c:162-169 | a GET of a key that is not stored is answered with the not-found message naming it |
| ServerProperties.StartupServesIffLoaded | src/server.c:435-477 | the server serves exactly when the registry loaded; a file that does not open names the file; the defensive FATAL ERROR branch is never reached |
| ServerProperties.TabLineLoad | src/keyregistry.c:306-324 | loading the file holding the one line of a tab then "x" fails on line 1 with KEY_INVALID at position 1 and stores nothing |
| ServerProperties.StartupReportsPosition | src/server.c:453-456 | a first line of a tab then "x" stops startup with "Invalid character found at [1,1]\n" |

## Left out

- KeyRegistry.LoadFrom: parses each file line with the exact value length, the corrected parser of the Findings row. It therefore differs from the C as written on lines over 257 characters: there the C can accept an over-long value, cut to its length modulo 256.
- KeyRegistry.ReadRegistry: the same exact-length parse of file lines, taken over from LoadFrom.
- KeyRegistry.Registry.ReadRegistryFile: its loop calls ParseKeyValue with the exact length, so it computes ReadRegistry and differs from the C in the same way on lines over 257 characters.
- KeyRegistry.Registry.GetKey and KeyRegistry.Registry.PutKey call ParseKeyValue with the exact length too. A wire request holds at most 253 characters, and on lines of at most 257 characters ParseAsWrittenAgreesOnShortLines proves the two lengths agree.

- The socket plumbing (`serverTask`, `createSocket`, `readSocket`, `addClient`, `removeClient`, `select`/`accept`/`write`): it is network I/O. The model receives one message at a time, and returns what would be written and whether the session is closed.
- `src/client.c`: it is a separate program that only talks to the server over a socket.
- The `getopt`, `strtol` and `malloc` handling in `processCmdLineOpts`: it is command-line I/O. Only the port range rule is modelled (`Server.ClampPort`), and the registry file name is a parameter of `Server.Startup`.
- `fopen`, `getline` and `fclose`: they are file I/O. The file is given as `Some(contents)`, or as `None` when it does not open, and `KeyRegistry.Lines` splits the contents where `getline` would.
- Keys and values copied without a NUL terminator, and reading `linePtr[len - 1]` when `len` is 0: both are undefined behaviour.
  - The model's strings carry their length.
  - The terminator strip is guarded by `len > 0`. On every path that reaches it from a caller, the character the C reads there is a space or the last command letter, so the guard gives the same result.
  - A NUL inside a file line ends the key scan, as in the C. A value is kept as the characters up to the trimmed end.
- Memory and socket defects of `server.c`: writing `buffer[256]` in `readSocket`, `malloc(strlen(...))` one byte short for the registry file name, and `addClient` on a failed `accept`. They are in code outside this model.
- A failed `malloc` in `storeKey`, which still returns OK: allocation is not modelled, so every store of a new key succeeds.
- The value printed with `%s` when a key-only PUT or a stored key has no value: the C passes NULL, and the model prints it as the empty string.
- `isalpha`/`isdigit`/`tolower` in locales other than C: only ASCII classification is modelled.
- The linked list is modelled as the sequence of its entries, from head to tail, so aliasing between its nodes is not modelled.
- The `'\0'` writes that `parseKeyValue` makes into the caller's line. The parser takes the line as a value, and no caller reads the line afterwards.
- `KeyRegistry.Get` and `KeyRegistry.Put` report an empty key on a parse failure: the C leaves `*key` set to the parsed key on VAL_TOO_LONG. The reply text for the parse error codes never shows the key, so what is written is the same.
- `KeyRegistry.Get` and `KeyRegistry.Put` report position 0 when the parse succeeded: the C leaves `errPos` unset on those paths, and the error messages never include the position.

## Findings

| source | as written | input that shows it | evidently intended | confidence | as-written member | corrected member |
|---|---|---|---|---|---|---|
| src/keyregistry.c:250-252 | the value length is stored in a `uint8_t`, so it is taken modulo 256 before it is checked against the 32-character limit | the line `k ` followed by 256 characters `a`: the length wraps to 0, and the line is accepted as key `k` with an empty value | a value longer than 32 characters is rejected with VAL_TOO_LONG at the position of its 33rd character (35 here) | not executed | ParserProperties.ParseAsWrittenAcceptsOverlongValue | ParserProperties.ParseValueTooLong |
