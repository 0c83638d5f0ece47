// The envelope both encryption migrations copy: AES-256-GCM output as dotted base64url parts
// behind a marker prefix. AES and base64url stay opaque.
module PiiEnvelope {
  import opened Options

  type Bytes = seq<bv8>

  /** The opaque functions, for one key. `seal` gives tag and ciphertext; `open` gives None when
      authentication fails. */
  datatype Crypto = Crypto(
    seal: (Bytes, string) -> (Bytes, Bytes), open: (Bytes, Bytes, Bytes) -> Option<string>,
    encode: Bytes -> string, decode: string -> Bytes)

  /** What is assumed of them: decryption inverts encryption, tags are 16 bytes, only the empty
      text has an empty ciphertext, and base64url (section 5 of RFC 4648) is reversible, keeps
      emptiness both ways and writes no dot. */
  ghost predicate Sound(c: Crypto) {
    && (forall iv, text :: var (tag, ciphertext) := c.seal(iv, text);
                           && c.open(iv, tag, ciphertext) == Some(text)
                           && |tag| == 16 && (ciphertext == [] <==> text == ""))
    && (forall b :: c.decode(c.encode(b)) == b && '.' !in c.encode(b) && (c.encode(b) == "" <==> b == []))
  }

  const AES_VERSION := "v1"
  const PII_FIELD_PREFIX := "encpii:"

  /** `split('.')`. */
  function Split(s: string): (parts: seq<string>)
    ensures |parts| >= 1
  {
    if s == "" then [""]
    else
      var rest := Split(s[1..]);
      if s[0] == '.' then [""] + rest else [[s[0]] + rest[0]] + rest[1..]
  }

  function EncryptWithKey(c: Crypto, iv: Bytes, text: string): string {
    var (tag, ciphertext) := c.seal(iv, text);
    AES_VERSION + "." + c.encode(iv) + "." + c.encode(tag) + "." + c.encode(ciphertext)
  }

  /** None where the source throws. */
  function DecryptWithKey(c: Crypto, encrypted: string): Option<string> {
    var parts := Split(encrypted);
    if |parts| < 4 || parts[0] != AES_VERSION || parts[1] == "" || parts[2] == "" || parts[3] == "" then None
    else c.open(c.decode(parts[1]), c.decode(parts[2]), c.decode(parts[3]))
  }

  predicate Marked(s: string) {
    PII_FIELD_PREFIX <= s
  }

  function DecryptField(c: Crypto, s: string): Option<string> {
    if Marked(s) then DecryptWithKey(c, s[|PII_FIELD_PREFIX|..]) else Some(s)
  }

  /** Encryption of an unmarked text. */
  function Sealed(c: Crypto, iv: Bytes, text: string): (s: string)
    ensures Marked(s)
  {
    PII_FIELD_PREFIX + EncryptWithKey(c, iv, text)
  }

  // ---------------------------------------------------------------- the envelope opens

  lemma {:induction false} SplitAtDot(a: string, rest: string)
    requires '.' !in a
    ensures Split(a) == [a]
    ensures Split(a + "." + rest) == [a] + Split(rest)
  {
    var s := a + "." + rest;
    if a == "" {
      assert s[1..] == rest;
    } else {
      SplitAtDot(a[1..], rest);
      assert s[1..] == a[1..] + "." + rest;
      assert [a[0]] + a[1..] == a;
    }
  }

  lemma SplitEnvelope(a: string, b: string, d: string)
    requires '.' !in a && '.' !in b && '.' !in d
    ensures Split(AES_VERSION + "." + (a + "." + (b + "." + d))) == [AES_VERSION, a, b, d]
  {
    hide Split;
    SplitAtDot(d, "");
    SplitAtDot(b, d);
    SplitAtDot(a, b + "." + d);
    SplitAtDot(AES_VERSION, a + "." + (b + "." + d));
    assert [AES_VERSION] + ([a] + ([b] + [d])) == [AES_VERSION, a, b, d];
  }

  /** The layout of an envelope: version, vector, tag and ciphertext, separated by dots, behind the
      marker. */
  lemma EnvelopeLayout(c: Crypto, iv: Bytes, text: string)
    requires Sound(c)
    ensures var s, (tag, ciphertext) := Sealed(c, iv, text), c.seal(iv, text);
            "encpii:" <= s && Split(s[7..]) == ["v1", c.encode(iv), c.encode(tag), c.encode(ciphertext)]
  {
    hide Split;
    var (tag, ciphertext) := c.seal(iv, text);
    var a, b, d := c.encode(iv), c.encode(tag), c.encode(ciphertext);
    SplitEnvelope(a, b, d);
    assert EncryptWithKey(c, iv, text) == AES_VERSION + "." + (a + "." + (b + "." + d));
    assert Sealed(c, iv, text)[7..] == EncryptWithKey(c, iv, text);
  }

  /** Decrypting what was encrypted gives the text back, except that an envelope of the empty
      text is refused, because its ciphertext part is empty. */
  lemma DecryptAfterEncrypt(c: Crypto, iv: Bytes, text: string)
    requires Sound(c) && iv != []
    ensures DecryptWithKey(c, EncryptWithKey(c, iv, text)) == if text == "" then None else Some(text)
    ensures DecryptField(c, Sealed(c, iv, text)) == if text == "" then None else Some(text)
  {
    hide Split;
    var (tag, ciphertext) := c.seal(iv, text);
    var a, b, d := c.encode(iv), c.encode(tag), c.encode(ciphertext);
    SplitEnvelope(a, b, d);
    assert EncryptWithKey(c, iv, text) == AES_VERSION + "." + (a + "." + (b + "." + d));
    assert Sealed(c, iv, text)[|PII_FIELD_PREFIX|..] == EncryptWithKey(c, iv, text);
  }
}
