/**
 * The encrypted-file container: a 16-byte IV followed by the AES-CBC ciphertext of the file.
 * The cipher itself (NIST SP 800-38A section 6.2, with the PKCS#7 padding WebCrypto applies) is
 * a pair of functions the model does not look into; `Sound` states the two laws the container
 * relies on.
 */
module Aes {
  import opened Wrappers
  import opened Bytes

  /** The AES block size, and the length of the IV. */
  const BlockSize: nat := 16

  /** What escapes `encryptFile` or `decryptFile` as a rejected promise. */
  datatype Error = TypeError | DataError

  /** The argument of `decryptFile`: a `Blob` with its bytes, or any other value. */
  datatype Input = Blob(bytes: seq<byte>) | NotBlob

  /** `crypto.subtle.encrypt` and `crypto.subtle.decrypt` for AES-CBC, given the raw key and the
      IV; `decrypt` is `None` when it rejects. */
  datatype Cipher = Cipher(
    encrypt: (seq<byte>, seq<byte>, seq<byte>) -> seq<byte>,
    decrypt: (seq<byte>, seq<byte>, seq<byte>) -> Option<seq<byte>>)

  /** `importKey("raw", ...)` accepts a 128-, 192- or 256-bit AES key; any other length is a
      `DataError`. */
  predicate ValidKey(key: seq<byte>)
  {
    |key| == 16 || |key| == 24 || |key| == 32
  }

  /** The length of a PKCS#7-padded plaintext of `n` bytes: always at least one byte of padding,
      up to the next whole block. */
  function PaddedLength(n: nat): nat
  {
    (n / BlockSize + 1) * BlockSize
  }

  /** Decryption with the same key and IV undoes encryption, and the ciphertext is the padded
      length of the plaintext. */
  ghost predicate Sound(c: Cipher)
  {
    forall key: seq<byte>, iv: seq<byte>, p: seq<byte> {:trigger c.encrypt(key, iv, p)} ::
      ValidKey(key) && |iv| == BlockSize ==>
        c.decrypt(key, iv, c.encrypt(key, iv, p)) == Some(p) && |c.encrypt(key, iv, p)| == PaddedLength(|p|)
  }

  function Min(a: int, b: int): int { if a < b then a else b }

  /** `data.slice(0, 16)` and `data.slice(16)`: both clamp to the data. */
  function Split(data: seq<byte>): (r: (seq<byte>, seq<byte>))
    ensures r.0 + r.1 == data
    ensures |r.0| == Min(BlockSize, |data|)
  {
    (data[..Min(BlockSize, |data|)], data[Min(BlockSize, |data|)..])
  }

  class AES256 {
    const key: seq<byte>

    constructor (key: seq<byte>)
      ensures this.key == key
    {
      this.key := key;
    }

    /** `encryptFile(file)`, the IV that `crypto.getRandomValues` fills given as `iv`. The
        container is the IV followed by the ciphertext; a key of the wrong length rejects. */
    method EncryptFile(c: Cipher, iv: seq<byte>, file: seq<byte>) returns (r: Result<seq<byte>, Error>)
      requires |iv| == BlockSize
      ensures r.Failure? <==> !ValidKey(key)
      ensures r.Failure? ==> r.error == DataError
      ensures r.Success? ==> Split(r.value) == (iv, c.encrypt(key, iv, file))
    {
      if !ValidKey(key) {
        return Failure(DataError);
      }
      var encrypted := c.encrypt(key, iv, file);
      var combined := new byte[|iv| + |encrypted|];
      forall i | 0 <= i < |iv| {
        combined[i] := iv[i];
      }
      forall i | 0 <= i < |encrypted| {
        combined[|iv| + i] := encrypted[i];
      }
      assert combined[..] == iv + encrypted;
      assert (iv + encrypted)[..BlockSize] == iv && (iv + encrypted)[BlockSize..] == encrypted;
      r := Success(combined[..]);
    }

    /** `decryptFile(input)`: anything but a `Blob` is a `TypeError` before any other work; the
        key import sits outside the `try`, so a bad key rejects; a bad IV or a failed decryption
        is caught and gives `null` (`None`). */
    function DecryptFile(c: Cipher, input: Input): (r: Result<Option<seq<byte>>, Error>)
      ensures input.NotBlob? ==> r == Failure(TypeError)
      ensures input.Blob? ==> (r.Failure? <==> !ValidKey(key))
      ensures input.Blob? && r.Failure? ==> r.error == DataError
      ensures input.Blob? && |input.bytes| < BlockSize ==> r.Failure? || r.value.None?
    {
      match input
      case NotBlob => Failure(TypeError)
      case Blob(data) =>
        var (iv, encrypted) := Split(data);
        if !ValidKey(key) then Failure(DataError)
        else if |iv| != BlockSize then Success(None)
        else Success(c.decrypt(key, iv, encrypted))
    }
  }

  /** Splitting an IV followed by a ciphertext gives back the two. */
  lemma SplitFrame(iv: seq<byte>, encrypted: seq<byte>)
    requires |iv| == BlockSize
    ensures Split(iv + encrypted) == (iv, encrypted)
  {
    assert (iv + encrypted)[..BlockSize] == iv && (iv + encrypted)[BlockSize..] == encrypted;
  }

  /** `decryptFile` never returns part of a plaintext: a result is exactly what the cipher's
      decryption gave for the container's IV and ciphertext. */
  lemma DecryptIsWhole(aes: AES256, c: Cipher, data: seq<byte>)
    requires aes.DecryptFile(c, Blob(data)).Success? && aes.DecryptFile(c, Blob(data)).value.Some?
    ensures |data| >= BlockSize
    ensures Some(aes.DecryptFile(c, Blob(data)).value.value) == c.decrypt(aes.key, data[..BlockSize], data[BlockSize..])
  {
  }

  /** Under the cipher's laws, decrypting the container `encryptFile` makes, with the same key,
      gives the file back. */
  lemma RoundTrip(aes: AES256, c: Cipher, iv: seq<byte>, file: seq<byte>)
    requires Sound(c) && ValidKey(aes.key) && |iv| == BlockSize
    ensures aes.DecryptFile(c, Blob(iv + c.encrypt(aes.key, iv, file))) == Success(Some(file))
  {
    SplitFrame(iv, c.encrypt(aes.key, iv, file));
  }

  /** The container is the IV plus the padded file: a one-byte file gives 32 bytes. */
  lemma ContainerLength(c: Cipher, key: seq<byte>, iv: seq<byte>, file: seq<byte>)
    requires Sound(c) && ValidKey(key) && |iv| == BlockSize
    ensures |iv + c.encrypt(key, iv, file)| == BlockSize + PaddedLength(|file|)
    ensures |file| == 1 ==> |iv + c.encrypt(key, iv, file)| == 32
  {
    assert |c.encrypt(key, iv, file)| == PaddedLength(|file|);
  }

  /** Encrypting with a fresh `AES256` and decrypting its output with the same object gives the
      file back. */
  method EncryptThenDecrypt(c: Cipher, key: seq<byte>, iv: seq<byte>, file: seq<byte>) returns (r: Result<Option<seq<byte>>, Error>)
    requires Sound(c) && ValidKey(key) && |iv| == BlockSize
    ensures r == Success(Some(file))
  {
    var aes := new AES256(key);
    var sealed := aes.EncryptFile(c, iv, file);
    assert sealed.value == iv + c.encrypt(key, iv, file);
    RoundTrip(aes, c, iv, file);
    r := aes.DecryptFile(c, Blob(sealed.value));
  }

  // ---------------------------------------------------------------------------------------
  // The laws can hold: PKCS#7 padding alone, with no encryption, satisfies both.

  /** The PKCS#7 padding of `p`: `n` copies of `n`, with `n` from 1 to 16. */
  function Pad(p: seq<byte>): (r: seq<byte>)
    ensures |r| == PaddedLength(|p|)
  {
    var n := BlockSize - |p| % BlockSize;
    p + seq(n, _ => n)
  }

  /** Removing PKCS#7 padding; `None` when the input is not padded text. */
  function Unpad(c: seq<byte>): Option<seq<byte>>
  {
    if |c| == 0 || |c| % BlockSize != 0 then None
    else
      var n := c[|c| - 1];
      if n < 1 || n > BlockSize then None
      else if forall i :: |c| - n <= i < |c| ==> c[i] == n then Some(c[..|c| - n])
      else None
  }

  lemma UnpadPad(p: seq<byte>)
    ensures Unpad(Pad(p)) == Some(p)
  {
    var n := BlockSize - |p| % BlockSize;
    var c := Pad(p);
    assert c[|c| - 1] == n;
    assert c[..|c| - n] == p;
  }

  /** Padding alone, as a cipher. */
  const PaddingOnly: Cipher := Cipher((key, iv, p) => Pad(p), (key, iv, c) => Unpad(c))

  lemma PaddingOnlyIsSound()
    ensures Sound(PaddingOnly)
  {
    forall key: seq<byte>, iv: seq<byte>, p: seq<byte> | ValidKey(key) && |iv| == BlockSize
      ensures PaddingOnly.decrypt(key, iv, PaddingOnly.encrypt(key, iv, p)) == Some(p)
    {
      UnpadPad(p);
    }
  }
}
