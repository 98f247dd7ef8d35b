/**
 * The value encodings of the `toggle-type`, `toggle-state` and `text-direction` properties of
 * the com.canonical.dbusmenu interface (src/dbusmenu/event_types.rs): two string encodings,
 * one 32-bit integer encoding, and the default value of each enum.
 */
module EventTypes {
  import opened Options

  /** A D-Bus `int32`. */
  type Int32 = x: int | -0x8000_0000 <= x < 0x8000_0000

  // ---------------------------------------------------------------- toggle-type (signature "s")

  datatype ToggleType = Checkmark | Radio | None

  /** The strings a `toggle-type` property may carry on the wire. */
  const ToggleTypeNames: set<string> := {"checkmark", "radio", ""}

  /** Variant names are lower-cased, and `None` is renamed to the empty string. */
  function EncodeToggleType(t: ToggleType): (s: string)
    ensures s in ToggleTypeNames
    ensures DecodeToggleType(s) == Some(t)
  {
    match t
    case Checkmark => "checkmark"
    case Radio => "radio"
    case None => ""
  }

  function DecodeToggleType(s: string): (r: Option<ToggleType>)
    ensures r.Some? <==> s in ToggleTypeNames
  {
    if s == "checkmark" then Some(Checkmark)
    else if s == "radio" then Some(Radio)
    else if s == "" then Some(ToggleType.None)
    else Option.None
  }

  /** `#[default]` marks `Radio`. */
  function DefaultToggleType(): (t: ToggleType)
    ensures EncodeToggleType(t) == "radio"
  {
    Radio
  }

  lemma ToggleTypeDecodeOnlyEncodings(s: string)
    ensures DecodeToggleType(s).Some? ==> EncodeToggleType(DecodeToggleType(s).value) == s
  {
  }

  lemma ToggleTypeEncodingInjective(a: ToggleType, b: ToggleType)
    ensures EncodeToggleType(a) == EncodeToggleType(b) ==> a == b
  {
    if EncodeToggleType(a) == EncodeToggleType(b) {
      assert Some(a) == DecodeToggleType(EncodeToggleType(a)) == Some(b);
    }
  }

  // ------------------------------------------------------ toggle-state (i32, declaration order)

  datatype ToggleState = UnSelected | Selected | TriState

  /** `#[repr(i32)]` without explicit discriminants numbers the variants 0, 1, 2. */
  function EncodeToggleState(t: ToggleState): (n: Int32)
    ensures 0 <= n <= 2
    ensures DecodeToggleState(n) == Some(t)
  {
    match t
    case UnSelected => 0
    case Selected => 1
    case TriState => 2
  }

  /** Deserialising a discriminant that names no variant fails. */
  function DecodeToggleState(n: Int32): (r: Option<ToggleState>)
    ensures r.Some? <==> 0 <= n <= 2
  {
    if n == 0 then Some(UnSelected)
    else if n == 1 then Some(Selected)
    else if n == 2 then Some(TriState)
    else Option.None
  }

  /** `#[default]` marks `UnSelected`. */
  function DefaultToggleState(): (t: ToggleState)
    ensures EncodeToggleState(t) == 0
  {
    UnSelected
  }

  lemma ToggleStateDecodeOnlyEncodings(n: Int32)
    ensures DecodeToggleState(n).Some? ==> EncodeToggleState(DecodeToggleState(n).value) == n
  {
  }

  lemma ToggleStateEncodingInjective(a: ToggleState, b: ToggleState)
    ensures EncodeToggleState(a) == EncodeToggleState(b) ==> a == b
  {
    if EncodeToggleState(a) == EncodeToggleState(b) {
      assert Some(a) == DecodeToggleState(EncodeToggleState(a)) == Some(b);
    }
  }

  // ------------------------------------------------------------ text-direction (signature "s")

  datatype TextDirection = Inherit | Rtl | Ltr

  const TextDirectionNames: set<string> := {"inherit", "rtl", "ltr"}

  function EncodeTextDirection(d: TextDirection): (s: string)
    ensures s in TextDirectionNames
    ensures DecodeTextDirection(s) == Some(d)
  {
    match d
    case Inherit => "inherit"
    case Rtl => "rtl"
    case Ltr => "ltr"
  }

  function DecodeTextDirection(s: string): (r: Option<TextDirection>)
    ensures r.Some? <==> s in TextDirectionNames
  {
    if s == "inherit" then Some(Inherit)
    else if s == "rtl" then Some(Rtl)
    else if s == "ltr" then Some(Ltr)
    else Option.None
  }

  /** `#[default]` marks `Inherit`. */
  function DefaultTextDirection(): (d: TextDirection)
    ensures EncodeTextDirection(d) == "inherit"
  {
    Inherit
  }

  lemma TextDirectionDecodeOnlyEncodings(s: string)
    ensures DecodeTextDirection(s).Some? ==> EncodeTextDirection(DecodeTextDirection(s).value) == s
  {
  }

  lemma TextDirectionEncodingInjective(a: TextDirection, b: TextDirection)
    ensures EncodeTextDirection(a) == EncodeTextDirection(b) ==> a == b
  {
    if EncodeTextDirection(a) == EncodeTextDirection(b) {
      assert Some(a) == DecodeTextDirection(EncodeTextDirection(a)) == Some(b);
    }
  }
}
