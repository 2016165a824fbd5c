/** The digest the scripts use: a SHA-256 hex digest, of which only the last
    `num_chars` characters (the match key) are compared. The hash function itself
    is a foreign library call, so it is a parameter of the model. */
module Digest {

  /** Length of a SHA-256 digest written in hexadecimal. */
  const DigestLength: nat := 64

  predicate IsHexChar(c: char) {
    '0' <= c <= '9' || 'a' <= c <= 'f'
  }

  /** What `sha256(...).hexdigest()` returns: 64 lower-case hex characters. */
  type HexDigest = s: string | |s| == DigestLength && forall c :: 0 <= c < |s| ==> IsHexChar(s[c])
    witness seq(64, _ => '0')

  /** The digest as an uninterpreted total function of the hashed text. */
  type Hasher = string -> HexDigest

  /** The values of `num_chars` for which `[-num_chars:]` takes exactly the last
      `num_chars` characters of the digest. */
  type KeyLength = n: nat | 1 <= n <= DigestLength witness 1

  /** `s[-n:]` for `1 <= n <= len(s)`: the last `n` characters of `s`. */
  function Suffix(s: string, n: nat): (k: string)
    requires n <= |s|
    ensures |k| == n
    decreases |s|
  {
    if |s| == n then s else Suffix(s[1..], n)
  }

  lemma {:induction false} SuffixIsSlice(s: string, n: nat)
    requires n <= |s|
    ensures Suffix(s, n) == s[|s| - n..]
  {
    if |s| != n {
      SuffixIsSlice(s[1..], n);
      assert s[1..][|s| - 1 - n..] == s[|s| - n..];
    }
  }

  /** `sha256(text.encode()).hexdigest()[-num_chars:]`: the match key of a text. */
  function MatchKey(h: Hasher, numChars: KeyLength, text: string): (k: string)
    ensures |k| == numChars
  {
    Suffix(h(text), numChars)
  }

  /** The key is the last `num_chars` characters of the digest, so it is made of
      hex digits. */
  lemma MatchKeyIsDigestSuffix(h: Hasher, numChars: KeyLength, text: string)
    ensures MatchKey(h, numChars, text) == h(text)[DigestLength - numChars..]
    ensures forall c :: 0 <= c < numChars ==> IsHexChar(MatchKey(h, numChars, text)[c])
  {
    SuffixIsSlice(h(text), numChars);
  }
}
