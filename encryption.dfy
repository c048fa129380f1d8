/** The at-rest format of the encrypted secrets: AES-256-GCM output written
    as three lower-case hex fields `ciphertext:iv:tag`. The cipher itself is
    a pair of function parameters (seal and open); random bytes are inputs. */
module Encryption {
  import opened Common
  import Strings

  const ALGORITHM: string := "aes-256-gcm"
  /** Master key size in bytes. */
  const KEY_LENGTH: nat := 32
  /** Initialisation vector size in bytes. */
  const IV_LENGTH: nat := 16
  const FORMAT_ERROR: string := "Invalid encrypted data format"

  type Byte = b: int | 0 <= b < 256

  predicate IsHexDigit(c: char) {
    ('0' <= c <= '9') || ('a' <= c <= 'f')
  }

  predicate IsHex(s: string) {
    forall i :: 0 <= i < |s| ==> IsHexDigit(s[i])
  }

  function HexDigit(d: nat): (c: char)
    requires d < 16
    ensures IsHexDigit(c)
  {
    if d < 10 then '0' + d as char else 'a' + (d - 10) as char
  }

  /** `buffer.toString('hex')`: two lower-case digits per byte. */
  function Hex(bytes: seq<Byte>): (s: string)
    ensures |s| == 2 * |bytes|
    ensures IsHex(s)
  {
    if bytes == [] then ""
    else [HexDigit(bytes[0] / 16), HexDigit(bytes[0] % 16)] + Hex(bytes[1..])
  }

  lemma HexHasNoColon(s: string)
    requires IsHex(s)
    ensures ':' !in s
  {
  }

  /** `generateMasterKey`: 32 random bytes in hex. */
  function GenerateMasterKey(random: seq<Byte>): (key: string)
    requires |random| == KEY_LENGTH
    ensures |key| == 64 && IsHex(key)
  {
    Hex(random)
  }

  /** The three stored fields joined by ':'. */
  function Frame(ciphertext: string, iv: string, tag: string): string {
    Strings.Join([ciphertext, iv, tag], ':')
  }

  /** `encrypt(plaintext, masterKey)` with `iv` the freshly drawn random
      bytes and `seal` the AES-GCM encryption, giving ciphertext and tag. */
  function Encrypt(plaintext: string, masterKey: string, iv: seq<Byte>,
                   seal: (string, string, seq<Byte>) -> (seq<Byte>, seq<Byte>)): (data: string)
    requires |iv| == IV_LENGTH
    ensures var (ciphertext, tag) := seal(plaintext, masterKey, iv);
      |Strings.Split(data, ':')| == 3 &&
      Strings.Split(data, ':') == [Hex(ciphertext), Hex(iv), Hex(tag)]
  {
    var (ciphertext, tag) := seal(plaintext, masterKey, iv);
    FramedFields(Hex(ciphertext), Hex(iv), Hex(tag));
    Frame(Hex(ciphertext), Hex(iv), Hex(tag))
  }

  /** Three hex fields survive the framing. */
  lemma FramedFields(ciphertext: string, iv: string, tag: string)
    requires IsHex(ciphertext) && IsHex(iv) && IsHex(tag)
    ensures Strings.Split(Frame(ciphertext, iv, tag), ':') == [ciphertext, iv, tag]
  {
    HexHasNoColon(ciphertext);
    HexHasNoColon(iv);
    HexHasNoColon(tag);
    var parts := [ciphertext, iv, tag];
    assert Strings.Separated(parts, ':');
    Strings.SplitJoin(parts, ':');
  }

  /** The destructuring `[encrypted, iv, authTag] = data.split(':')` and its
      check: each of the first three fields must be present and non-empty;
      any further field is ignored. */
  function Fields(data: string): (r: Result<(string, string, string)>)
    ensures var parts := Strings.Split(data, ':');
      r.Success? <==> |parts| >= 3 && parts[0] != "" && parts[1] != "" && parts[2] != ""
    ensures r.Success? ==> var parts := Strings.Split(data, ':');
      r.value == (parts[0], parts[1], parts[2])
    ensures r.Failure? ==> r.error == FORMAT_ERROR
  {
    var parts := Strings.Split(data, ':');
    var encrypted := parts[0];
    var iv := if |parts| > 1 then parts[1] else "";
    var tag := if |parts| > 2 then parts[2] else "";
    if encrypted == "" || iv == "" || tag == "" then Failure(FORMAT_ERROR)
    else Success((encrypted, iv, tag))
  }

  /** `decrypt(data, masterKey)` with `open` the AES-GCM decryption of
      (ciphertext, key, iv, tag), which fails on a wrong key or tag. */
  function Decrypt(data: string, masterKey: string,
                   open: (string, string, string, string) -> Result<string>): (r: Result<string>)
    ensures Fields(data).Failure? ==> r == Failure(FORMAT_ERROR)
    ensures Fields(data).Success? ==>
      var (ciphertext, iv, tag) := Fields(data).value;
      r == open(ciphertext, masterKey, iv, tag)
  {
    match Fields(data)
    case Failure(e) => Failure(e)
    case Success((ciphertext, iv, tag)) => open(ciphertext, masterKey, iv, tag)
  }

  /** Decrypting what was encrypted hands the cipher back exactly the
      ciphertext, iv and tag it produced, provided ciphertext and tag are not
      empty. */
  lemma RoundTrip(plaintext: string, masterKey: string, iv: seq<Byte>,
                  seal: (string, string, seq<Byte>) -> (seq<Byte>, seq<Byte>),
                  open: (string, string, string, string) -> Result<string>)
    requires |iv| == IV_LENGTH
    requires seal(plaintext, masterKey, iv).0 != [] && seal(plaintext, masterKey, iv).1 != []
    ensures var (ciphertext, tag) := seal(plaintext, masterKey, iv);
      Decrypt(Encrypt(plaintext, masterKey, iv, seal), masterKey, open)
        == open(Hex(ciphertext), masterKey, Hex(iv), Hex(tag))
  {
    var (ciphertext, tag) := seal(plaintext, masterKey, iv);
    assert |Hex(ciphertext)| > 0 && |Hex(iv)| > 0 && |Hex(tag)| > 0;
  }

  /** An empty ciphertext (the encryption of empty text under a stream mode)
      is framed as `:iv:tag`, which decrypt refuses as malformed. */
  lemma EmptyCiphertextRejected(plaintext: string, masterKey: string, iv: seq<Byte>,
                                seal: (string, string, seq<Byte>) -> (seq<Byte>, seq<Byte>),
                                open: (string, string, string, string) -> Result<string>)
    requires |iv| == IV_LENGTH
    requires seal(plaintext, masterKey, iv).0 == []
    ensures Decrypt(Encrypt(plaintext, masterKey, iv, seal), masterKey, open) == Failure(FORMAT_ERROR)
  {
  }

  /** Text after a third separator does not change what decrypt reads. */
  lemma ExtraFieldsIgnored(ciphertext: string, iv: string, tag: string, rest: string, masterKey: string,
                           open: (string, string, string, string) -> Result<string>)
    requires ':' !in ciphertext && ':' !in iv && ':' !in tag
    ensures Decrypt(Frame(ciphertext, iv, tag) + [':'] + rest, masterKey, open)
         == Decrypt(Frame(ciphertext, iv, tag), masterKey, open)
  {
    var parts := [ciphertext, iv, tag];
    assert Strings.Separated(parts, ':');
    Strings.SplitJoinThen(parts, rest, ':');
    Strings.SplitJoin(parts, ':');
  }
}
