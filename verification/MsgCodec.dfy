/** Message encryption of src/message/MsgCodec.js over an abstract authenticated cipher, and the header obfuscation of
    src/message/Message.js over an abstract keystream. */
module MsgCodec {
  import opened Bytes
  import opened Frame

  /** AES-CCM with a 16-byte tag: (key, nonce, additional data, plaintext) to ciphertext and tag, and back. */
  datatype Aead = Aead(
    seal: (bytes, bytes, bytes, bytes) -> (bytes, bytes),
    open: (bytes, bytes, bytes, bytes, bytes) -> Option<bytes>)

  ghost predicate SoundAead(c: Aead) {
    forall k, n, a, p :: var (e, t) := c.seal(k, n, a, p); |t| == MIC_SIZE && c.open(k, n, a, e, t) == Some(p)
  }

  /** `headerSize`: by single bits, so a message with both destination bits counts both. */
  function HeaderSize(b: bytes): nat {
    var flags := if b == [] then 0 else b[0];
    HEADER_SIZE + (if Bit(flags, 4) then 8 else 0) + (if Bit(flags, 1) then 8 else 0) + if Bit(flags, 2) then 2 else 0
  }

  /** `Buffer.concat(list, n)`: cut or zero-filled to n bytes. */
  function Sized(b: bytes, n: nat): (r: bytes)
    ensures |r| == n
  {
    if |b| >= n then b[..n] else b + Zeros(n - |b|)
  }

  const NONCE_SIZE := 13

  /** Security flags, message counter, source node id. */
  function Nonce(b: bytes): (n: bytes)
    ensures |n| == NONCE_SIZE
  {
    var flags := if b == [] then 0 else b[0];
    Sized(Take(b, 3, 5) + if Bit(flags, 4) then Take(b, 8, 8) else Zeros(8), NONCE_SIZE)
  }

  /** Security flags, message counter and source node id, or zeros where the message names none, as a receiver reads
      them. */
  lemma NonceHolds(b: bytes)
    requires Whole(b)
    ensures var n := Nonce(b);
            && n[0] == SecurityFlags(b) && FromLE(n[1..5]) == MessageCounter(b)
            && n[5..] == (if Sflag(b[0]) then b[8..16] else Zeros(8))
            && (Sflag(b[0]) ==> FromLE(n[5..]) == SourceNodeId(b))
  {
    hide FromLE;
    var n := Nonce(b);
    assert n[1..5] == b[4..8];
  }

  function Encrypt(c: Aead, b: bytes, key: bytes): bytes {
    var aad := Take(b, 0, HeaderSize(b));
    var (encrypted, tag) := c.seal(key, Nonce(b), aad, Skip(b, HeaderSize(b)));
    aad + encrypted + tag
  }

  /** A message shorter than a tag is refused by the cipher. */
  function Decrypt(c: Aead, b: bytes, key: bytes): Option<bytes> {
    if |b| < MIC_SIZE then None
    else
      var n := |b| - MIC_SIZE;
      var enc := if HeaderSize(b) <= n then b[HeaderSize(b)..n] else [];
      var aad := Take(b, 0, HeaderSize(b));
      match c.open(key, Nonce(b), aad, enc, b[n..])
      case None => None
      case Some(plain) => Some(aad + plain)
  }

  /** What the cipher must be for a header to be bound: a ciphertext and tag opens under one nonce and one additional
      data only. */
  ghost predicate BindsAead(c: Aead) {
    forall k, n, a, n2, a2, e, t ::
      c.open(k, n, a, e, t).Some? && c.open(k, n2, a2, e, t).Some? ==> n == n2 && a == a2
  }

  /** The header is authenticated: of two messages with the same ciphertext and tag behind their headers, both of which
      decrypt, the headers are the same, byte for byte. */
  lemma HeaderIsAuthenticated(c: Aead, a: bytes, b: bytes, key: bytes)
    requires BindsAead(c) && HeaderSize(a) + MIC_SIZE <= |a| && HeaderSize(b) + MIC_SIZE <= |b|
    requires a[HeaderSize(a)..] == b[HeaderSize(b)..]
    requires Decrypt(c, a, key).Some? && Decrypt(c, b, key).Some?
    ensures a == b
  {
    hide Nonce;
    hide HeaderSize;
    var x, y := a[HeaderSize(a)..], b[HeaderSize(b)..];
    SameTail(a, HeaderSize(a));
    SameTail(b, HeaderSize(b));
    assert c.open(key, Nonce(a), a[..HeaderSize(a)], x[..|x| - MIC_SIZE], x[|x| - MIC_SIZE..]).Some?;
    assert c.open(key, Nonce(b), b[..HeaderSize(b)], y[..|y| - MIC_SIZE], y[|y| - MIC_SIZE..]).Some?;
    assert a == a[..HeaderSize(a)] + x && b == b[..HeaderSize(b)] + y;
  }

  lemma SameTail(b: bytes, k: nat)
    requires k + MIC_SIZE <= |b|
    ensures var x := b[k..];
            b[k..|b| - MIC_SIZE] == x[..|x| - MIC_SIZE] && b[|b| - MIC_SIZE..] == x[|x| - MIC_SIZE..]
  {
  }

  /** The header is in the clear, so the receiver finds the same nonce and additional data. */
  lemma SameHeader(b: bytes, more: bytes)
    requires HeaderSize(b) <= |b|
    ensures var e := b[..HeaderSize(b)] + more;
            HeaderSize(e) == HeaderSize(b) && Nonce(e) == Nonce(b) && Take(e, 0, HeaderSize(b)) == b[..HeaderSize(b)]
  {
    var e := b[..HeaderSize(b)] + more;
    assert e[..HeaderSize(b)] == b[..HeaderSize(b)];
    assert forall i :: 0 <= i < HeaderSize(b) ==> e[i] == b[i];
    assert Take(e, 3, 5) == Take(b, 3, 5);
    if Bit(b[0], 4) {
      assert Take(e, 8, 8) == Take(b, 8, 8);
    }
  }

  /** Decrypting with the same key gives the message back. */
  lemma DecryptEncrypt(c: Aead, b: bytes, key: bytes)
    requires SoundAead(c) && HeaderSize(b) <= |b|
    ensures Decrypt(c, Encrypt(c, b, key), key) == Some(b)
  {
    var k := HeaderSize(b);
    var aad, pay := b[..k], b[k..];
    var (encrypted, tag) := c.seal(key, Nonce(b), aad, pay);
    assert c.open(key, Nonce(b), aad, encrypted, tag) == Some(pay);
    var e := aad + encrypted + tag;
    assert e == aad + (encrypted + tag);
    SameHeader(b, encrypted + tag);
    var n := |e| - MIC_SIZE;
    assert e[k..n] == encrypted && e[n..] == tag;
    assert aad + pay == b;
  }

  // ----- privacy

  /** The keystream cipher: (key, text, nonce) to a text of the same length, its own inverse. */
  type Keystream = (bytes, bytes, bytes) -> bytes

  ghost predicate SoundKeystream(x: Keystream) {
    forall k, t, n :: |x(k, t, n)| == |t| && x(k, x(k, t, n), n) == t
  }

  const CLEARTEXT_SIZE := 4
  const MIC_FRAGMENT_SIZE := 11

  /** Session id, big end first, and the last eleven bytes of the tag. */
  function PrivacyNonce(header: bytes, encrypted: bytes): bytes
    requires |header| >= 3 && |encrypted| >= MIC_SIZE
  {
    [SessionId(header) / 0x100 % 0x100, SessionId(header) % 0x100] + encrypted[|encrypted| - MIC_FRAGMENT_SIZE..]
  }

  /** `privacyEncrypt` and `privacyDecrypt`: bytes 4 to PayloadOffset of `encrypted`, under the nonce that `header` and
      `encrypted` give. */
  function Obfuscate(x: Keystream, header: bytes, encrypted: bytes, key: bytes): bytes
    requires |header| >= CLEARTEXT_SIZE && |encrypted| >= MIC_SIZE
  {
    if !Pflag(header) then encrypted
    else
      var end := PayloadOffset(header);
      encrypted[..CLEARTEXT_SIZE]
      + x(key, Take(encrypted, CLEARTEXT_SIZE, end - CLEARTEXT_SIZE), PrivacyNonce(header, encrypted))
      + Skip(encrypted, end)
  }

  /** The privacy nonce is the session id, high byte first, and then the last eleven bytes of the tag. */
  lemma PrivacyNonceHolds(header: bytes, encrypted: bytes)
    requires |header| >= 3 && |encrypted| >= MIC_SIZE
    ensures var n := PrivacyNonce(header, encrypted);
            && |n| == NONCE_SIZE && n[2..] == encrypted[|encrypted| - 11..]
            && var high: int, low: int := n[0], n[1]; 0x100 * high + low == SessionId(header)
  {
    Pow256Values();
    var id := SessionId(header);
    assert id < 0x1_0000;
    assert id == 0x100 * (id / 0x100) + id % 0x100;
  }

  /** With the privacy flag, exactly the rest of the header is veiled: the counter and the node ids; flags, session id,
      ciphertext and tag stay.  Without it, nothing is. */
  lemma ObfuscatesHeaderOnly(x: Keystream, header: bytes, encrypted: bytes, key: bytes)
    requires SoundKeystream(x) && |header| >= CLEARTEXT_SIZE && PayloadOffset(header) + MIC_SIZE <= |encrypted|
    ensures var hidden, end := Obfuscate(x, header, encrypted, key), PayloadOffset(header);
            && |hidden| == |encrypted|
            && (forall i :: 0 <= i < 4 || end <= i < |encrypted| ==> hidden[i] == encrypted[i])
            && (Pflag(header) ==> hidden[4..end] == x(key, encrypted[4..end], PrivacyNonce(header, encrypted)))
            && (!Pflag(header) ==> hidden == encrypted)
  {
    if Pflag(header) {
      var end := PayloadOffset(header);
      var veiled := x(key, encrypted[4..end], PrivacyNonce(header, encrypted));
      assert |veiled| == end - 4;
      VeiledParts(encrypted, end, veiled);
      var hidden := encrypted[..4] + veiled + encrypted[end..];
      assert Obfuscate(x, header, encrypted, key) == hidden;
      assert hidden[4..end] == veiled;
    }
  }

  lemma VeiledParts(e: bytes, end: nat, veiled: bytes)
    requires CLEARTEXT_SIZE <= end && end + MIC_SIZE <= |e| && |veiled| == end - CLEARTEXT_SIZE
    ensures var h := e[..CLEARTEXT_SIZE] + veiled + e[end..];
            && |h| == |e| && h[..CLEARTEXT_SIZE] == e[..CLEARTEXT_SIZE]
            && Take(h, CLEARTEXT_SIZE, end - CLEARTEXT_SIZE) == veiled && Skip(h, end) == e[end..]
            && h[|h| - MIC_FRAGMENT_SIZE..] == e[|e| - MIC_FRAGMENT_SIZE..]
  {
  }

  lemma ClearFields(a: bytes, b: bytes)
    requires |a| >= CLEARTEXT_SIZE && |b| >= CLEARTEXT_SIZE && a[..CLEARTEXT_SIZE] == b[..CLEARTEXT_SIZE]
    ensures Pflag(a) == Pflag(b) && PayloadOffset(a) == PayloadOffset(b) && SessionId(a) == SessionId(b)
  {
    assert forall i :: 0 <= i < CLEARTEXT_SIZE ==> a[i] == a[..CLEARTEXT_SIZE][i] && b[i] == b[..CLEARTEXT_SIZE][i];
    assert a[1..3] == b[1..3];
  }

  /** The flags, the session id and the tag are not touched, so applying it again undoes it. */
  lemma ObfuscateTwice(x: Keystream, header: bytes, encrypted: bytes, key: bytes)
    requires SoundKeystream(x) && |header| >= CLEARTEXT_SIZE
    requires PayloadOffset(header) + MIC_SIZE <= |encrypted|
    requires header[..CLEARTEXT_SIZE] == encrypted[..CLEARTEXT_SIZE]
    ensures var hidden := Obfuscate(x, header, encrypted, key);
            && |hidden| == |encrypted|
            && hidden[..CLEARTEXT_SIZE] == encrypted[..CLEARTEXT_SIZE]
            && Obfuscate(x, hidden, hidden, key) == encrypted
  {
    if Pflag(header) {
      var end := PayloadOffset(header);
      var text, nonce := encrypted[CLEARTEXT_SIZE..end], PrivacyNonce(header, encrypted);
      var veiled := x(key, text, nonce);
      assert x(key, veiled, nonce) == text && |veiled| == |text|;
      VeiledParts(encrypted, end, veiled);
      var hidden := encrypted[..CLEARTEXT_SIZE] + veiled + encrypted[end..];
      assert Obfuscate(x, header, encrypted, key) == hidden;
      ClearFields(header, hidden);
      assert PrivacyNonce(hidden, hidden) == nonce;
      assert encrypted[..CLEARTEXT_SIZE] + text + encrypted[end..] == encrypted;
    } else {
      ClearFields(header, encrypted);
    }
  }

  /** The additional data and the obfuscated header end at the same place, unless both destination bits are set. */
  lemma HeadersEndTogether(b: bytes)
    requires b != []
    ensures HeaderSize(b) == PayloadOffset(b) <==> Dsiz(b[0]) != 3
    ensures PayloadOffset(b) <= HeaderSize(b)
  {
  }

  /** Encrypt, obfuscate, and at the receiver, which starts from the received bytes alone, undo both. */
  lemma SecureRoundTrip(c: Aead, x: Keystream, b: bytes, key: bytes, privacyKey: bytes)
    requires SoundAead(c) && SoundKeystream(x) && HeaderSize(b) <= |b|
    ensures var e := Encrypt(c, b, key);
            && |e| >= MIC_SIZE
            && var sent := Obfuscate(x, b, e, privacyKey);
               && |sent| >= MIC_SIZE
               && Obfuscate(x, sent, sent, privacyKey) == e
               && Decrypt(c, Obfuscate(x, sent, sent, privacyKey), key) == Some(b)
  {
    var k := HeaderSize(b);
    var (encrypted, tag) := c.seal(key, Nonce(b), b[..k], b[k..]);
    assert c.open(key, Nonce(b), b[..k], encrypted, tag) == Some(b[k..]);
    var e := b[..k] + encrypted + tag;
    assert Encrypt(c, b, key) == e;
    assert e[..CLEARTEXT_SIZE] == b[..CLEARTEXT_SIZE];
    HeadersEndTogether(b);
    ObfuscateTwice(x, b, e, privacyKey);
    DecryptEncrypt(c, b, key);
  }
}
