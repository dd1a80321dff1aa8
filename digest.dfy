/** The password digest used for the range query:
    hashlib.sha1(...).hexdigest().upper(), cut after its fifth character. */
module Digest {

  predicate IsLowerHex(c: char) { '0' <= c <= '9' || 'a' <= c <= 'f' }
  predicate IsUpperHex(c: char) { '0' <= c <= '9' || 'A' <= c <= 'F' }

  /** What hexdigest() returns for SHA-1: 40 lower-case hex digits. */
  type HexDigest = s: string | |s| == 40 && forall i :: 0 <= i < |s| ==> IsLowerHex(s[i])
    witness "0000000000000000000000000000000000000000"

  /** The same after upper(): 40 upper-case hex digits. */
  type UpperDigest = s: string | |s| == 40 && forall i :: 0 <= i < |s| ==> IsUpperHex(s[i])
    witness "0000000000000000000000000000000000000000"

  /** str.upper() on one ASCII character. */
  function ToUpper(c: char): char {
    if 'a' <= c <= 'z' then (c as int - 32) as char else c
  }

  /** hexdigest().upper(). */
  function Upper(d: HexDigest): (r: UpperDigest)
    ensures forall i :: 0 <= i < 40 ==> (d[i] == r[i] <==> '0' <= d[i] <= '9')
    ensures forall i :: 0 <= i < 40 && 'a' <= d[i] <= 'f' ==> r[i] as int == d[i] as int - 32
  {
    seq(40, i requires 0 <= i < 40 => ToUpper(d[i]))
  }

  /** Upper-casing a digest loses nothing: two digests that compare equal
      after upper() were equal before it. */
  lemma UpperInjective(a: HexDigest, b: HexDigest)
    requires Upper(a) == Upper(b)
    ensures a == b
  {
    forall i | 0 <= i < 40 ensures a[i] == b[i] {
      assert ToUpper(a[i]) == Upper(a)[i];
      assert ToUpper(b[i]) == Upper(b)[i];
    }
  }

  /** `first5_char, tail = sha1password[:5], sha1password[5:]`. */
  function SplitDigest(d: UpperDigest): (r: (string, string))
    ensures |r.0| == 5 && |r.1| == 35
    ensures r.0 + r.1 == d
    ensures forall i :: 0 <= i < 5 ==> IsUpperHex(r.0[i])
    ensures forall i :: 0 <= i < 35 ==> IsUpperHex(r.1[i])
  {
    (d[..5], d[5..])
  }
}
