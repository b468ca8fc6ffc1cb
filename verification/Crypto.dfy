/** Padding, block cipher and tag of discovery datagrams (`discovery/crypto.rs`). */
module Crypto {
  import opened Std
  import opened Codec
  import opened Bits

  const BLOCK_SIZE: nat := 16
  const TAG_SIZE: nat := 32

  /** AES-256 under the fixed key, known only to permute 16-byte blocks. */
  datatype Cipher = Cipher(encrypt: seq<u8> -> seq<u8>, decrypt: seq<u8> -> seq<u8>) {
    ghost predicate Permutes() {
      && (forall b | |b| == BLOCK_SIZE :: |encrypt(b)| == BLOCK_SIZE && decrypt(encrypt(b)) == b)
      && (forall b | |b| == BLOCK_SIZE :: |decrypt(b)| == BLOCK_SIZE && encrypt(decrypt(b)) == b)
    }
  }

  type IdealCipher = c: Cipher | c.Permutes() witness Cipher((b: seq<u8>) => b, (b: seq<u8>) => b)

  const AES: IdealCipher

  /** HMAC-SHA256 under the fixed key; `verify_slice` accepts exactly the computed tag. */
  datatype Mac = Mac(tag: seq<u8> -> seq<u8>) {
    ghost predicate Sized() {
      forall d :: |tag(d)| == TAG_SIZE
    }
  }

  type IdealMac = m: Mac | m.Sized() witness Mac((d: seq<u8>) => seq(TAG_SIZE, i => 0))

  const HMAC: IdealMac

  predicate Blocked(s: seq<u8>) {
    |s| % BLOCK_SIZE == 0
  }

  function EncryptBlocks(s: seq<u8>): (r: seq<u8>)
    requires Blocked(s)
    ensures |r| == |s|
  {
    if s == [] then [] else AES.encrypt(s[..16]) + EncryptBlocks(s[16..])
  }

  function DecryptBlocks(s: seq<u8>): (r: seq<u8>)
    requires Blocked(s)
    ensures |r| == |s|
  {
    if s == [] then [] else AES.decrypt(s[..16]) + DecryptBlocks(s[16..])
  }

  lemma {:induction false} BlocksInverse(s: seq<u8>)
    requires Blocked(s)
    ensures DecryptBlocks(EncryptBlocks(s)) == s
    ensures EncryptBlocks(DecryptBlocks(s)) == s
  {
    if s != [] {
      BlocksInverse(s[16..]);
      var head, e, d := s[..16], EncryptBlocks(s), DecryptBlocks(s);
      assert s == head + s[16..];
      assert e[..16] == AES.encrypt(head) && e[16..] == EncryptBlocks(s[16..]);
      assert d[..16] == AES.decrypt(head) && d[16..] == DecryptBlocks(s[16..]);
    }
  }

  function PadLength(n: nat): (p: nat)
    ensures 1 <= p <= BLOCK_SIZE && (n + p) % BLOCK_SIZE == 0
  {
    BLOCK_SIZE - n % BLOCK_SIZE
  }

  /** Section 6.3 of RFC 5652. */
  function Pad(data: seq<u8>): (r: seq<u8>)
    ensures Blocked(r) && r != []
  {
    data + seq(PadLength(|data|), i => PadLength(|data|))
  }

  /** What the padding must look like: the last byte counts the padding bytes, all equal to it. */
  predicate WellPadded(s: seq<u8>) {
    s != [] && 1 <= s[|s| - 1] <= BLOCK_SIZE && s[|s| - 1] <= |s|
    && forall i | |s| - s[|s| - 1] <= i < |s| :: s[i] == s[|s| - 1]
  }

  function Unpad(s: seq<u8>): seq<u8>
    requires WellPadded(s)
  {
    s[..|s| - s[|s| - 1]]
  }

  function Encrypt(data: seq<u8>): seq<u8> {
    EncryptBlocks(Pad(data))
  }

  function Decrypt(s: seq<u8>): Option<seq<u8>> {
    if s == [] || !Blocked(s) then None
    else
      var clear := DecryptBlocks(s);
      if WellPadded(clear) then Some(Unpad(clear)) else None
  }

  lemma UnpadOfPad(data: seq<u8>)
    ensures WellPadded(Pad(data)) && Unpad(Pad(data)) == data
  {
  }

  lemma PadOfUnpad(s: seq<u8>)
    requires Blocked(s) && WellPadded(s)
    ensures Pad(Unpad(s)) == s
  {
    var p := s[|s| - 1];
    assert PadLength(|s| - p) == p;
  }

  /** Decryption accepts exactly the outputs of encryption, and gives back what was encrypted. */
  lemma DecryptInvertsEncrypt(x: seq<u8>, y: seq<u8>)
    ensures Decrypt(x) == Some(y) <==> Encrypt(y) == x
  {
    UnpadOfPad(y);
    BlocksInverse(Pad(y));
    if x != [] && Blocked(x) {
      BlocksInverse(x);
      if WellPadded(DecryptBlocks(x)) {
        PadOfUnpad(DecryptBlocks(x));
      }
    }
  }

  // ---- the code ----

  /** The accumulating xor/or loop is the all-bytes-equal check. */
  method PaddingMatches(s: seq<u8>, start: nat, padding: u8) returns (ok: bool)
    requires start <= |s|
    ensures ok <==> forall j | start <= j < |s| :: s[j] == padding
  {
    var mismatched: nat := 0;
    for i := start to |s|
      invariant mismatched == 0 <==> forall j | start <= j < i :: s[j] == padding
    {
      XorZero(s[i], padding);
      OrZero(mismatched, Xor(s[i], padding));
      mismatched := Or(mismatched, Xor(s[i], padding));
    }
    ok := mismatched == 0;
  }

  method EncryptBuffer(buf: seq<u8>) returns (r: seq<u8>)
    ensures r == Encrypt(buf)
  {
    var paddingLen := BLOCK_SIZE - |buf| % BLOCK_SIZE;
    r := buf + seq(paddingLen, i => paddingLen);
    r := EncryptBlocks(r);
  }

  method DecryptBuffer(buf: seq<u8>) returns (r: Option<seq<u8>>)
    ensures r == Decrypt(buf)
  {
    if |buf| == 0 || |buf| % BLOCK_SIZE != 0 {
      return None;
    }
    var clear := DecryptBlocks(buf);
    var dataLen := |clear|;
    var paddingLen := clear[dataLen - 1];
    if paddingLen > 0 && paddingLen <= Min(BLOCK_SIZE, dataLen) {
      var paddingStart := dataLen - paddingLen;
      var ok := PaddingMatches(clear, paddingStart, paddingLen);
      if ok {
        return Some(clear[..paddingStart]);
      }
    }
    return None;
  }
}
