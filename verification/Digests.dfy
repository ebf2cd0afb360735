/** Bytes and their SHA-256, taken as collision-free: a digest determines the content. */
module Digests {
  type Byte = b: int | 0 <= b < 256

  datatype Digest = Sha256(content: seq<Byte>)

  const READ_BLOCK := 4 * 1024 * 1024

  /** The block-reading loop: what it hashes is the whole file, whatever its length. */
  method HashFile(file: seq<Byte>) returns (digest: Digest)
    ensures digest == Sha256(file)
  {
    var hashed: seq<Byte> := [];
    var position := 0;
    var end := false;
    while !end
      invariant 0 <= position <= |file| && hashed == file[..position]
      invariant end ==> position == |file|
      decreases |file| - position, if end then 0 else 1
    {
      var count := if |file| - position < READ_BLOCK then |file| - position else READ_BLOCK;
      var block := file[position..position + count];
      if block == [] {
        end := true;
      } else {
        hashed := hashed + block;
        position := position + count;
      }
    }
    return Sha256(hashed);
  }
}
