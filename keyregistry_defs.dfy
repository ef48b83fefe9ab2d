/**
 * Constants and policy of the key registry header: the eight result codes, the key and
 * value length limits and the compile-time switch that decides whether existing keys
 * may be overwritten.
 */
module KeyRegistryDefs {
  import opened Wrappers

  /** The registry's result codes, in the order of their numeric values 0 .. 7. */
  datatype Code =
    | Ok           // KREG_OK
    | ErrRegOpen   // KREG_ERR_REG_OPEN
    | KeyEmpty     // KREG_KEY_EMPTY
    | KeyInvalid   // KREG_KEY_INVALID
    | KeyTooLong   // KREG_KEY_TOO_LONG
    | KeyNotFound  // KREG_KEY_NOT_FOUND
    | ValTooLong   // KREG_VAL_TOO_LONG
    | KeyExists    // KREG_KEY_EXISTS, only produced in strict mode

  /** The numeric value the header gives each code. */
  function CodeValue(c: Code): (n: nat)
    ensures n <= 7
    ensures n == 0 <==> c == Ok
  {
    match c
    case Ok => 0
    case ErrRegOpen => 1
    case KeyEmpty => 2
    case KeyInvalid => 3
    case KeyTooLong => 4
    case KeyNotFound => 5
    case ValTooLong => 6
    case KeyExists => 7
  }

  /** Decodes a numeric result value; exactly the values 0 .. 7 denote a code. */
  function CodeOf(n: nat): (c: Option<Code>)
    ensures c.Some? <==> n <= 7
    ensures c.Some? ==> CodeValue(c.value) == n
  {
    if n == 0 then Some(Ok)
    else if n == 1 then Some(ErrRegOpen)
    else if n == 2 then Some(KeyEmpty)
    else if n == 3 then Some(KeyInvalid)
    else if n == 4 then Some(KeyTooLong)
    else if n == 5 then Some(KeyNotFound)
    else if n == 6 then Some(ValTooLong)
    else if n == 7 then Some(KeyExists)
    else None
  }

  /** The eight codes have eight distinct values: decoding a code's value gives the code back. */
  lemma CodeValueRoundTrip(c: Code)
    ensures CodeOf(CodeValue(c)) == Some(c)
  {
  }

  /** Longest key, in characters. */
  const MaxKeyLen: nat := 16
  /** Longest value, in characters. */
  const MaxValLen: nat := 32

  /** The two settings of a feature switch. */
  const FsDisabled: nat := 0
  const FsEnabled: nat := 1

  /**
   * The value of the update switch: enabled exactly when the build defines
   * FS_ALLOW_UPDATE, disabled (strict) otherwise.
   */
  function AllowUpdateSwitch(fsAllowUpdateDefined: bool): (s: nat)
    ensures s == FsEnabled || s == FsDisabled
  {
    if fsAllowUpdateDefined then FsEnabled else FsDisabled
  }

  /** The store overwrites existing keys unless the switch reads disabled. */
  function UpdatesAllowed(fsAllowUpdateDefined: bool): bool
  {
    AllowUpdateSwitch(fsAllowUpdateDefined) != FsDisabled
  }

  /** Updates are allowed if and only if FS_ALLOW_UPDATE is defined; without it the registry is strict. */
  lemma UpdatesAllowedIffDefined(fsAllowUpdateDefined: bool)
    ensures UpdatesAllowed(fsAllowUpdateDefined) <==> fsAllowUpdateDefined
  {
  }

  /** An unsigned 16-bit variable holding n (error positions and line counters are uint16_t). */
  function U16(n: nat): (r: nat)
    ensures r < 0x1_0000
    ensures n < 0x1_0000 ==> r == n
  {
    n % 0x1_0000
  }
}
