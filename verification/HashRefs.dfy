/** Hash references and their wire form "domain:algo:digest". */
module HashRefs {
  import opened Common

  datatype HashRef = HashRef(domain: string, algo: string, digest: string)

  const FRAME_PREFIX := "fingerprint.v1:"

  predicate KnownDomain(domain: string) {
    || domain in {"cas.v1", "merkle.v1", "audit.v1", "attest.v1", "dist.v1", "cache.v1", "seed.v1", "lsh.v1", "rolling.v1"}
    || FRAME_PREFIX <= domain
  }

  /** Hex length of the digest, for the algorithms that need no key. */
  predicate KeylessAlgo(algo: string, nibbles: nat) {
    || (algo in {"b3-256", "jcs-sha256"} && nibbles == 64)
    || (algo in {"xxh3-128", "simhash-128", "minhash-128"} && nibbles == 32)
    || (algo in {"xxh3-64", "rabin-gf2-63"} && nibbles == 16)
  }

  predicate HexChar(c: char) {
    '0' <= c <= '9' || 'a' <= c <= 'f'
  }

  // The digest pattern ends in "$", which also matches just before one final newline.
  predicate HexDigest(d: string) {
    && |d| > 0 && HexChar(d[0])
    && forall i :: 0 <= i < |d| ==> HexChar(d[i]) || (i == |d| - 1 && d[i] == '\n')
  }

  predicate WellFormed(r: HashRef) {
    KnownDomain(r.domain) && KeylessAlgo(r.algo, |r.digest|) && HexDigest(r.digest)
  }

  /**
   * The references the registry makes are well formed exactly with 64 lower-case hexadecimal digits, of which the
   * last may be a newline instead.
   */
  lemma RegistryRefs(d: string)
    ensures WellFormed(HashRef("cas.v1", "b3-256", d)) <==> WellFormed(HashRef("attest.v1", "jcs-sha256", d))
    ensures WellFormed(HashRef("cas.v1", "b3-256", d)) <==>
      && |d| == 64
      && (forall i :: 0 <= i < 63 ==> d[i] in "0123456789abcdef")
      && (d[63] in "0123456789abcdef" || d[63] == '\n')
  {
    forall c: char ensures HexChar(c) <==> c in "0123456789abcdef" { HexDigits(c); }
  }

  lemma HexDigits(c: char)
    ensures HexChar(c) <==> c in "0123456789abcdef"
  {
    var digits := "0123456789abcdef";
    if '0' <= c <= '9' { assert digits[c as int - '0' as int] == c; }
    if 'a' <= c <= 'f' { assert digits[c as int - 'a' as int + 10] == c; }
  }

  function Show(r: HashRef): string {
    r.domain + ":" + r.algo + ":" + r.digest
  }

  /** Index of the last colon, or -1. */
  function LastColon(s: string): (i: int)
    ensures -1 <= i < |s|
    ensures i >= 0 ==> s[i] == ':'
    ensures forall k :: i < k < |s| ==> s[k] != ':'
  {
    if s == [] then -1
    else if s[|s| - 1] == ':' then |s| - 1
    else LastColon(s[..|s| - 1])
  }

  /** The last two colon-separated parts are algorithm and digest; the rest is the domain. */
  function Parse(s: string): Option<HashRef> {
    var i := LastColon(s);
    if i < 0 then None
    else
      var j := LastColon(s[..i]);
      if j < 0 then None
      else
        var r := HashRef(s[..j], s[j + 1..i], s[i + 1..]);
        if WellFormed(r) then Some(r) else None
  }

  predicate NoColon(s: string) {
    forall i :: 0 <= i < |s| ==> s[i] != ':'
  }

  lemma LastColonUnique(s: string, n: nat)
    requires n < |s| && s[n] == ':'
    requires forall k :: n < k < |s| ==> s[k] != ':'
    ensures LastColon(s) == n
  {
    hide LastColon;
    var i := LastColon(s);
    assert i >= n;
  }

  lemma JoinChars(a: string, b: string)
    requires NoColon(b)
    ensures var s := a + ":" + b;
      s[|a|] == ':' && forall k :: |a| < k < |s| ==> s[k] != ':'
  {
    var s := a + ":" + b;
    forall k | |a| < k < |s| ensures s[k] != ':' {
      assert s[k] == b[k - |a| - 1];
    }
  }

  lemma LastColonOfJoin(a: string, b: string)
    requires NoColon(b)
    ensures LastColon(a + ":" + b) == |a|
  {
    hide LastColon;
    JoinChars(a, b);
    LastColonUnique(a + ":" + b, |a|);
  }

  lemma WellFormedHasNoColon(r: HashRef)
    requires WellFormed(r)
    ensures NoColon(r.algo) && NoColon(r.digest)
  {
  }

  lemma CutAt(a: string, b: string)
    ensures var s := a + ":" + b; s[..|a|] == a && s[|a| + 1..] == b
  {
  }

  lemma JoinAt(s: string, i: nat)
    requires i < |s| && s[i] == ':'
    ensures s == s[..i] + ":" + s[i + 1..]
  {
  }

  lemma ParseShow(r: HashRef)
    requires WellFormed(r)
    ensures Parse(Show(r)) == Some(r)
  {
    hide LastColon, WellFormed;
    WellFormedHasNoColon(r);
    var head := r.domain + ":" + r.algo;
    LastColonOfJoin(head, r.digest);
    CutAt(head, r.digest);
    LastColonOfJoin(r.domain, r.algo);
    CutAt(r.domain, r.algo);
    var s := Show(r);
    assert s == head + ":" + r.digest;
    var i, j := LastColon(s), |r.domain|;
    assert s[..i] == head && LastColon(s[..i]) == j;
    assert s[..j] == s[..i][..j] && s[j + 1..i] == s[..i][j + 1..];
  }

  lemma ShowParse(s: string)
    requires Parse(s).Some?
    ensures WellFormed(Parse(s).value) && Show(Parse(s).value) == s
  {
    hide LastColon, WellFormed;
    var i := LastColon(s);
    var j := LastColon(s[..i]);
    JoinAt(s, i);
    JoinAt(s[..i], j);
    assert s[..i][..j] == s[..j] && s[..i][j + 1..] == s[j + 1..i];
  }

  /** Parsing accepts exactly the wire forms of well-formed references, and inverts them. */
  lemma ParseIffShow(s: string, r: HashRef)
    ensures Parse(s) == Some(r) <==> WellFormed(r) && s == Show(r)
  {
    hide Parse, Show, WellFormed;
    if WellFormed(r) { ParseShow(r); }
    if Parse(s) == Some(r) { ShowParse(s); }
  }

  /** Distinct well-formed references have distinct wire forms. */
  lemma ShowInjective(a: HashRef, b: HashRef)
    requires WellFormed(a) && WellFormed(b) && Show(a) == Show(b)
    ensures a == b
  {
    ParseIffShow(Show(a), a);
    ParseIffShow(Show(a), b);
  }
}
