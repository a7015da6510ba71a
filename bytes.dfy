/** Byte strings as the resolver reads them out of resource handles. */
module ByteStrings {

  type byte = b: int | 0 <= b < 256

  const Slash: byte := 0x2F
  const Dash: byte := 0x2D
  const Pipe: byte := 0x7C

  /** The bytes of an ASCII literal. */
  function Ascii(s: string): (r: seq<byte>)
    requires forall i | 0 <= i < |s| :: s[i] as int < 128
    ensures |r| == |s| && forall i | 0 <= i < |s| :: r[i] == s[i] as int
  {
    seq(|s|, i requires 0 <= i < |s| => s[i] as int)
  }

  /** `ByteString.LastIndexOf(b)`: where `b` last occurs, or -1. */
  function LastIndexOf(s: seq<byte>, b: byte): (r: int)
    ensures -1 <= r < |s|
    ensures r >= 0 ==> s[r] == b
    ensures forall i | r < i < |s| :: s[i] != b
  {
    if s == [] then -1
    else if s[|s| - 1] == b then |s| - 1
    else LastIndexOf(s[..|s| - 1], b)
  }

  /** `ByteString.IndexOf(b, from)`: where `b` first occurs at or after `from`, or -1. */
  function IndexOf(s: seq<byte>, b: byte, from: nat): (r: int)
    ensures r == -1 || from <= r < |s|
    ensures r >= 0 ==> s[r] == b
    ensures forall i | from <= i < |s| && (r == -1 || i < r) :: s[i] != b
    decreases |s| - from
  {
    if from >= |s| then -1
    else if s[from] == b then from
    else IndexOf(s, b, from + 1)
  }
}
