/**
 * The encryption page: the key shown as base 64 text, the download names, and the two button
 * handlers with the page-level variables `aes`, `encryptedData` and `fileName` they assign.
 */
module IndexPage {
  import opened Wrappers
  import opened Bytes
  import Base64
  import opened Aes

  // ---------------------------------------------------------------------------------------
  // Key text

  /** `String.fromCharCode(...bytes)`: one character per byte, U+0000 to U+00FF. */
  function FromCharCodes(b: seq<byte>): (r: string)
    ensures |r| == |b|
  {
    seq(|b|, i requires 0 <= i < |b| => b[i] as char)
  }

  /** `s.split("").map(c => c.charCodeAt(0))` stored into a `Uint8Array`, which keeps each code
      modulo 256. */
  function CharCodes(s: string): (r: seq<byte>)
    ensures |r| == |s|
  {
    seq(|s|, i requires 0 <= i < |s| => (s[i] as int) % 256)
  }

  /** `btoa(s)`; `None` for the `InvalidCharacterError` a character above U+00FF raises. */
  function Btoa(s: string): Option<string>
  {
    if forall i :: 0 <= i < |s| ==> s[i] as int < 256 then Some(Base64.Encode(CharCodes(s))) else None
  }

  /** `atob(s)`: the decoded bytes as a string of U+0000 to U+00FF; `None` for the
      `InvalidCharacterError` it raises on text that is not base 64. */
  function Atob(s: string): Option<string>
  {
    match Base64.Decode(s)
    case None => None
    case Some(b) => Some(FromCharCodes(b))
  }

  /** The text `generateAESKey` puts in the key field. */
  function KeyText(key: seq<byte>): Option<string>
  {
    Btoa(FromCharCodes(key))
  }

  /** The key `decryptFile` builds from the text in the key field. */
  function KeyFromText(text: string): Option<seq<byte>>
  {
    match Atob(text)
    case None => None
    case Some(s) => Some(CharCodes(s))
  }

  /** Char codes of bytes give the bytes back. */
  lemma CodesOfChars(b: seq<byte>)
    ensures CharCodes(FromCharCodes(b)) == b
  {
  }

  /** The key text always exists and decodes to the key. */
  lemma KeyTextRoundTrip(key: seq<byte>)
    ensures KeyText(key).Some?
    ensures KeyFromText(KeyText(key).value) == Some(key)
  {
    KeyTextEncodes(key);
    Base64.RoundTrip(key);
    CodesOfChars(key);
  }

  /** The text of a 256-bit key is 44 characters long. */
  lemma KeyTextLength(key: seq<byte>)
    requires |key| == 32
    ensures |KeyText(key).value| == 44
  {
    var t := Base64.Encode(key);
    KeyTextEncodes(key);
    assert KeyText(key).value == t;
    Base64.EncodedLength(key);
    assert (|key| + 2) / 3 == 11;
  }

  /** The key text is the base 64 text of the key bytes. */
  lemma KeyTextEncodes(key: seq<byte>)
    ensures KeyText(key) == Some(Base64.Encode(key))
  {
    CodesOfChars(key);
  }

  // ---------------------------------------------------------------------------------------
  // Download names

  const EncryptedPrefix: string := "encrypted_"
  const DecryptedPrefix: string := "decrypted_"

  /** The name of the encrypted download. */
  function EncryptedName(name: string): (r: string)
    ensures |r| == |EncryptedPrefix| + |name| && r[..|EncryptedPrefix|] == EncryptedPrefix
  {
    EncryptedPrefix + name
  }

  /** `pat` occurs in `s` at position `i`. */
  predicate OccursAt(s: string, pat: string, i: nat)
  {
    i + |pat| <= |s| && s[i..i + |pat|] == pat
  }

  /** The first position at or after `i` where `pat` occurs in `s`. */
  function FirstFrom(s: string, pat: string, i: nat): (r: Option<nat>)
    requires i <= |s|
    ensures r.Some? ==> i <= r.value && OccursAt(s, pat, r.value)
    ensures r.Some? ==> forall j :: i <= j < r.value ==> !OccursAt(s, pat, j)
    ensures r.None? ==> forall j :: i <= j <= |s| ==> !OccursAt(s, pat, j)
    decreases |s| - i
  {
    if i + |pat| > |s| then None
    else if s[i..i + |pat|] == pat then Some(i)
    else FirstFrom(s, pat, i + 1)
  }

  /** `s.replace(pat, rep)` with a string pattern: only the first occurrence is replaced. */
  function ReplaceFirst(s: string, pat: string, rep: string): string
  {
    match FirstFrom(s, pat, 0)
    case None => s
    case Some(k) => s[..k] + rep + s[k + |pat|..]
  }

  /** The name of a decrypted download. */
  function DecryptedName(name: string): string
  {
    DecryptedPrefix + ReplaceFirst(name, EncryptedPrefix, "")
  }

  /** The decrypted name of an encrypted download is the original name after `decrypted_`. */
  lemma DecryptedOfEncrypted(name: string)
    ensures DecryptedName(EncryptedName(name)) == DecryptedPrefix + name
  {
    var e := EncryptedName(name);
    assert OccursAt(e, EncryptedPrefix, 0);
    assert e[|EncryptedPrefix|..] == name;
  }

  /** A name with no `encrypted_` in it is only prefixed. */
  lemma DecryptedUnmarked(name: string)
    requires forall j :: 0 <= j <= |name| ==> !OccursAt(name, EncryptedPrefix, j)
    ensures DecryptedName(name) == DecryptedPrefix + name
  {
  }

  /** Only the first `encrypted_` is removed, wherever it stands in the name. */
  lemma DecryptedFirstMarker(front: string, back: string)
    requires forall j :: 0 <= j < |front| ==> !OccursAt(front + EncryptedPrefix + back, EncryptedPrefix, j)
    ensures DecryptedName(front + EncryptedPrefix + back) == DecryptedPrefix + front + back
  {
    var s := front + EncryptedPrefix + back;
    var n := |EncryptedPrefix|;
    assert s[|front|..|front| + n] == EncryptedPrefix;
    assert OccursAt(s, EncryptedPrefix, |front|);
    var k := FirstFrom(s, EncryptedPrefix, 0).value;
    assert k == |front|;
    assert s[..k] == front && s[k + n..] == back;
  }

  // ---------------------------------------------------------------------------------------
  // Page

  /** The file chosen in the file input. */
  datatype PickedFile = PickedFile(name: string, bytes: seq<byte>)

  /** A download link: its `download` name and the bytes behind its URL. */
  datatype Link = Link(name: string, bytes: seq<byte>)

  /** The `alert`s the page shows. */
  datatype PageNotice = SelectFileFirst | SelectEncryptedFileFirst | EnterKey | DecryptionFailed

  class Page {
    var aes: AES256?
    var encryptedData: Option<seq<byte>>
    var fileName: Option<string>
    /** The value of the `aesKey` field. */
    var keyField: string
    /** The page's `downloadLink` anchor, once shown. */
    var downloadLink: Option<Link>
    /** The anchors `decryptFile` appends to the body, oldest first. */
    var decryptedLinks: seq<Link>
    var alerts: seq<PageNotice>

    constructor ()
      ensures aes == null && encryptedData == None && fileName == None && keyField == ""
      ensures downloadLink == None && decryptedLinks == [] && alerts == []
    {
      aes, encryptedData, fileName, keyField := null, None, None, "";
      downloadLink, decryptedLinks, alerts := None, [], [];
    }

    /** `generateAESKey()`, the values `crypto.getRandomValues` would give taken from `random`:
        a 256-bit key, shown in the key field as base 64. */
    method GenerateAESKey(random: nat -> byte) returns (key: seq<byte>)
      modifies this`keyField
      ensures |key| == 32 && forall i :: 0 <= i < 32 ==> key[i] == random(i)
      ensures KeyText(key) == Some(keyField) && KeyFromText(keyField) == Some(key)
    {
      key := seq(32, i requires 0 <= i => random(i));
      KeyTextRoundTrip(key);
      keyField := KeyText(key).value;
    }

    /** The `encryptFile` button: a fresh key and `AES256`, the file encrypted with IV `iv`, and
        the container offered as `encrypted_` + the file name. */
    method EncryptFile(file: Option<PickedFile>, c: Cipher, random: nat -> byte, iv: seq<byte>)
      requires |iv| == BlockSize
      modifies this
      ensures file.None? ==> alerts == old(alerts) + [SelectFileFirst]
      ensures file.None? ==> (aes == old(aes) && encryptedData == old(encryptedData) && fileName == old(fileName)
        && keyField == old(keyField) && downloadLink == old(downloadLink))
      ensures file.Some? ==>
        && fileName == Some(file.value.name)
        && aes != null && fresh(aes) && |aes.key| == 32
        && KeyFromText(keyField) == Some(aes.key)
        && encryptedData == Some(iv + c.encrypt(aes.key, iv, file.value.bytes))
        && downloadLink == Some(Link(EncryptedName(file.value.name), encryptedData.value))
        && alerts == old(alerts)
      ensures decryptedLinks == old(decryptedLinks)
    {
      if file.None? {
        alerts := alerts + [SelectFileFirst];
        return;
      }
      fileName := Some(file.value.name);
      var key := GenerateAESKey(random);
      aes := new AES256(key);
      var sealed := aes.EncryptFile(c, iv, file.value.bytes);
      assert sealed.Success?;
      assert sealed.value == Split(sealed.value).0 + Split(sealed.value).1;
      encryptedData := Some(sealed.value);
      downloadLink := Some(Link(EncryptedName(file.value.name), sealed.value));
    }

    /** The `decryptFile` button. With no file or no key text it only alerts. Text that is not
        base 64 makes `atob` throw, and a key of the wrong length makes `decryptFile` reject:
        either way nothing more happens. A failed decryption alerts and offers nothing;
        otherwise the plaintext is offered under the decrypted name. */
    method DecryptFile(file: Option<PickedFile>, keyString: string, c: Cipher)
      modifies this
      ensures encryptedData == old(encryptedData) && fileName == old(fileName)
      ensures keyField == old(keyField) && downloadLink == old(downloadLink)
      ensures file.None? ==> alerts == old(alerts) + [SelectEncryptedFileFirst] && aes == old(aes) && decryptedLinks == old(decryptedLinks)
      ensures file.Some? && keyString == "" ==> alerts == old(alerts) + [EnterKey] && aes == old(aes) && decryptedLinks == old(decryptedLinks)
      ensures file.Some? && keyString != "" && KeyFromText(keyString).None? ==>
        aes == old(aes) && alerts == old(alerts) && decryptedLinks == old(decryptedLinks)
      ensures file.Some? && keyString != "" && KeyFromText(keyString).Some? ==>
        && aes != null && fresh(aes) && Some(aes.key) == KeyFromText(keyString)
        && var r := aes.DecryptFile(c, Blob(file.value.bytes));
           && (r.Failure? ==> alerts == old(alerts) && decryptedLinks == old(decryptedLinks))
           && (r == Success(None) ==> alerts == old(alerts) + [DecryptionFailed] && decryptedLinks == old(decryptedLinks))
           && (r.Success? && r.value.Some? ==>
                 alerts == old(alerts) && decryptedLinks == old(decryptedLinks) + [Link(DecryptedName(file.value.name), r.value.value)])
    {
      if file.None? {
        alerts := alerts + [SelectEncryptedFileFirst];
        return;
      }
      if keyString == "" {
        alerts := alerts + [EnterKey];
        return;
      }
      var key := KeyFromText(keyString);
      if key.None? {
        return;
      }
      aes := new AES256(key.value);
      var r := aes.DecryptFile(c, Blob(file.value.bytes));
      if r.Failure? {
        return;
      }
      if r.value.None? {
        alerts := alerts + [DecryptionFailed];
        return;
      }
      decryptedLinks := decryptedLinks + [Link(DecryptedName(file.value.name), r.value.value)];
    }
  }

  /** Encrypt a file on the page, then decrypt the downloaded container with the displayed key
      text: the page offers the original bytes under `decrypted_` + the original name. */
  method EncryptThenDecryptPage(c: Cipher, random: nat -> byte, iv: seq<byte>, name: string, bytes: seq<byte>)
    returns (offered: Link, containerSize: nat)
    requires Sound(c) && |iv| == BlockSize
    ensures offered == Link(DecryptedPrefix + name, bytes)
    ensures containerSize == BlockSize + PaddedLength(|bytes|)
  {
    var page := new Page();
    page.EncryptFile(Some(PickedFile(name, bytes)), c, random, iv);
    var container := page.downloadLink.value;
    var aes := page.aes;
    RoundTrip(aes, c, iv, bytes);
    ContainerLength(c, aes.key, iv, bytes);
    DecryptedOfEncrypted(name);
    page.DecryptFile(Some(PickedFile(container.name, container.bytes)), page.keyField, c);
    offered := page.decryptedLinks[|page.decryptedLinks| - 1];
    containerSize := |container.bytes|;
  }
}
