/** The byte-filling loop of the audio decoder: the binary string that
    base64 decoding produced is copied into a byte array, one character code
    per byte. */
module Audio {

  newtype byte = x: int | 0 <= x < 256

  /** What a `Uint8Array` stores for a character code: the code modulo 256. */
  function ByteOf(c: char): (b: byte)
    ensures c as int < 256 ==> b as int == c as int
  {
    ((c as int) % 256) as byte
  }

  /** `new Uint8Array(len)`, then `bytes[i] = binary.charCodeAt(i)` for
      every position. */
  method BinaryToBytes(binary: string) returns (bytes: array<byte>)
    ensures fresh(bytes)
    ensures bytes.Length == |binary|
    ensures forall i :: 0 <= i < |binary| ==> bytes[i] == ByteOf(binary[i])
  {
    bytes := new byte[|binary|];
    var i := 0;
    while i < |binary|
      invariant 0 <= i <= |binary|
      invariant forall k :: 0 <= k < i ==> bytes[k] == ByteOf(binary[k])
    {
      bytes[i] := ByteOf(binary[i]);
      i := i + 1;
    }
  }
}
