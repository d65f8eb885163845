/** The content-addressed store: blobs keyed by digest, and attestation aliases. */
module ContentStore {
  import opened Common
  import opened HashRefs
  import opened RunIndex

  datatype Violation =
    | MissingRun | BadState | MissingRole | Integrity | AttestMismatch | ArtifactSchema
    | AliasConflict | EmptyRole | RefShape | NotCanonical | NotFound | NegativeKeep

  /** Canonicaliser, JSON reader and the two digests; bytes are strings here. */
  datatype Hashing = Hashing(
    canon: Json -> Option<string>,
    parse: string -> Option<Json>,
    casDigest: string -> string,
    attestDigest: string -> string)
  {
    function CasRef(bytes: string): HashRef {
      HashRef("cas.v1", "b3-256", casDigest(bytes))
    }

    function AttestRef(bytes: string): HashRef {
      HashRef("attest.v1", "jcs-sha256", attestDigest(bytes))
    }

    /**
     * Among the given byte strings no two share a digest, digests are 64-digit hex, and canonical bytes parse
     * back. Digests have a fixed length, so this can only be asked of finitely many byte strings at a time.
     */
    ghost predicate Sound(known: set<string>) {
      && (forall j :: canon(j).Some? && canon(j).value in known ==> parse(canon(j).value) == Some(j))
      && (forall a, b :: a in known && b in known && casDigest(a) == casDigest(b) ==> a == b)
      && (forall a, b :: a in known && b in known && attestDigest(a) == attestDigest(b) ==> a == b)
      && (forall a :: a in known ==> WellFormed(CasRef(a)) && WellFormed(AttestRef(a)))
    }
  }

  datatype StoredRefs = StoredRefs(cas: HashRef, attest: Option<HashRef>, size: int, mediaType: Option<string>)

  datatype Cas = Cas(blobs: map<string, string>, aliases: map<string, string>)

  predicate CasShaped(r: HashRef) {
    r.domain == "cas.v1" && r.algo == "b3-256"
  }

  predicate AttestShaped(r: HashRef) {
    r.domain == "attest.v1" && r.algo == "jcs-sha256"
  }

  function StoreIfMissing(c: Cas, digest: string, bytes: string): Cas {
    if digest in c.blobs then c else c.(blobs := c.blobs[digest := bytes])
  }

  function JsonRefs(h: Hashing, bytes: string): StoredRefs {
    StoredRefs(h.CasRef(bytes), Some(h.AttestRef(bytes)), |bytes|, Some("application/json"))
  }

  /** Canonicalise, store the blob once, then record the alias; a conflicting alias is refused last. */
  function PutJson(h: Hashing, c: Cas, payload: Json): (Cas, Result<StoredRefs, Violation>) {
    match h.canon(payload)
    case None => (c, Err(NotCanonical))
    case Some(bytes) =>
      var stored := StoreIfMissing(c, h.casDigest(bytes), bytes);
      var key, value := Show(h.AttestRef(bytes)), Show(h.CasRef(bytes));
      if key in c.aliases && c.aliases[key] != value then (stored, Err(AliasConflict))
      else (stored.(aliases := c.aliases[key := value]), Ok(JsonRefs(h, bytes)))
  }

  /**
   * Storing a payload, on any store: without canonical bytes nothing happens; otherwise the bytes are stored
   * under their digest unless something is there already, and the attestation is pointed at them unless it
   * points elsewhere, which is an error after the blob is stored.
   */
  lemma PutMeaning(h: Hashing, c: Cas, payload: Json)
    ensures var (next, r) := PutJson(h, c, payload);
      if h.canon(payload).None? then
        next == c && r == Err(NotCanonical)
      else
        var bytes := h.canon(payload).value;
        var digest, key := h.casDigest(bytes), "attest.v1:jcs-sha256:" + h.attestDigest(bytes);
        var ref := "cas.v1:b3-256:" + digest;
        && next.blobs.Keys == c.blobs.Keys + {digest}
        && (forall d :: d in c.blobs ==> next.blobs[d] == c.blobs[d])
        && (digest !in c.blobs ==> next.blobs[digest] == bytes)
        && (r == Err(AliasConflict) <==> key in c.aliases && c.aliases[key] != ref)
        && (r.Err? ==> r == Err(AliasConflict) && next.aliases == c.aliases)
        && (r.Ok? ==>
              && next.aliases == c.aliases[key := ref]
              && r.value == StoredRefs(HashRef("cas.v1", "b3-256", digest),
                                       Some(HashRef("attest.v1", "jcs-sha256", h.attestDigest(bytes))),
                                       |bytes|, Some("application/json")))
  {
    if h.canon(payload).Some? {
      var bytes := h.canon(payload).value;
      assert Show(h.AttestRef(bytes)) == "attest.v1:jcs-sha256:" + h.attestDigest(bytes);
      assert Show(h.CasRef(bytes)) == "cas.v1:b3-256:" + h.casDigest(bytes);
      hide Show;
    }
  }

  function GetBytes(c: Cas, r: HashRef): Result<string, Violation> {
    if !CasShaped(r) then Err(RefShape)
    else if r.digest !in c.blobs then Err(NotFound)
    else Ok(c.blobs[r.digest])
  }

  predicate Verifies(h: Hashing, c: Cas, r: HashRef) {
    r.digest in c.blobs && h.casDigest(c.blobs[r.digest]) == r.digest
  }

  /** None when the attestation is unknown. */
  function ResolveAttest(c: Cas, r: HashRef): Result<Option<HashRef>, Violation> {
    if !AttestShaped(r) then Err(RefShape)
    else if Show(r) !in c.aliases then Ok(None)
    else
      match Parse(c.aliases[Show(r)])
      case None => Err(RefShape)
      case Some(cas) => Ok(Some(cas))
  }

  /** key and value are the two wire references of one known byte string. */
  ghost predicate AliasOf(h: Hashing, known: set<string>, key: string, value: string) {
    exists b :: b in known && key == Show(h.AttestRef(b)) && value == Show(h.CasRef(b))
  }

  /** Every blob is known and sits under its own digest; every alias pairs the references of known bytes. */
  ghost predicate Consistent(h: Hashing, known: set<string>, c: Cas) {
    && (forall d :: d in c.blobs ==> c.blobs[d] in known && h.casDigest(c.blobs[d]) == d)
    && (forall k :: k in c.aliases ==> AliasOf(h, known, k, c.aliases[k]))
  }

  /** Knowing more byte strings breaks nothing. */
  lemma KnownGrows(h: Hashing, known: set<string>, more: set<string>, c: Cas)
    requires Consistent(h, known, c) && known <= more
    ensures Consistent(h, more, c)
  {
    forall k | k in c.aliases ensures AliasOf(h, more, k, c.aliases[k]) {
      assert AliasOf(h, known, k, c.aliases[k]);
    }
  }

  /** bytes can be fetched, verified and reached through their attestation. */
  ghost predicate Holds(h: Hashing, c: Cas, bytes: string) {
    && h.casDigest(bytes) in c.blobs && c.blobs[h.casDigest(bytes)] == bytes
    && Show(h.AttestRef(bytes)) in c.aliases
    && c.aliases[Show(h.AttestRef(bytes))] == Show(h.CasRef(bytes))
  }

  lemma AttestShowInjective(h: Hashing, known: set<string>, a: string, b: string)
    requires h.Sound(known) && a in known && b in known && Show(h.AttestRef(a)) == Show(h.AttestRef(b))
    ensures a == b
  {
    hide Show, WellFormed;
    ShowInjective(h.AttestRef(a), h.AttestRef(b));
  }

  /** Storing known bytes keeps the store consistent, keeps what it held, and is refused only without canonical form. */
  lemma PutKeepsConsistent(h: Hashing, known: set<string>, c: Cas, payload: Json)
    requires h.Sound(known) && Consistent(h, known, c)
    requires h.canon(payload).Some? ==> h.canon(payload).value in known
    ensures var (next, r) := PutJson(h, c, payload);
      && Consistent(h, known, next)
      && (forall b :: Holds(h, c, b) ==> Holds(h, next, b))
      && c.blobs.Keys <= next.blobs.Keys
      && (r.Err? ==> h.canon(payload).None? && r == Err(NotCanonical) && next == c)
      && (r.Ok? ==> h.canon(payload).Some? && r.value == JsonRefs(h, h.canon(payload).value)
                    && Holds(h, next, h.canon(payload).value))
  {
    hide Show, AliasOf;
    if h.canon(payload).Some? {
      var bytes := h.canon(payload).value;
      AliasIsOwn(h, known, c, bytes);
      StoredBlobs(h, known, c, bytes);
      OwnAlias(h, known, bytes);
    }
  }

  /** An alias already recorded for known bytes is their own. */
  lemma AliasIsOwn(h: Hashing, known: set<string>, c: Cas, bytes: string)
    requires h.Sound(known) && Consistent(h, known, c) && bytes in known
    ensures var key := Show(h.AttestRef(bytes)); key in c.aliases ==> c.aliases[key] == Show(h.CasRef(bytes))
  {
    hide Show, WellFormed;
    var key := Show(h.AttestRef(bytes));
    if key in c.aliases {
      assert AliasOf(h, known, key, c.aliases[key]);
      var b :| b in known && key == Show(h.AttestRef(b)) && c.aliases[key] == Show(h.CasRef(b));
      AttestShowInjective(h, known, b, bytes);
    }
  }

  lemma OwnAlias(h: Hashing, known: set<string>, bytes: string)
    requires bytes in known
    ensures AliasOf(h, known, Show(h.AttestRef(bytes)), Show(h.CasRef(bytes)))
  {
    hide Show;
  }

  lemma StoredBlobs(h: Hashing, known: set<string>, c: Cas, bytes: string)
    requires h.Sound(known) && Consistent(h, known, c) && bytes in known
    ensures var blobs := StoreIfMissing(c, h.casDigest(bytes), bytes).blobs;
      && h.casDigest(bytes) in blobs && blobs[h.casDigest(bytes)] == bytes
      && (forall d :: d in blobs ==> blobs[d] in known && h.casDigest(blobs[d]) == d)
  {
    hide AliasOf, WellFormed;
  }

  lemma HeldIsKnown(h: Hashing, known: set<string>, c: Cas, bytes: string)
    requires Consistent(h, known, c) && Holds(h, c, bytes)
    ensures bytes in known
  {
  }

  /** What a consistent store holds is found again by reference and by attestation. */
  lemma HeldIsFound(h: Hashing, known: set<string>, c: Cas, bytes: string)
    requires h.Sound(known) && bytes in known && Holds(h, c, bytes)
    ensures Verifies(h, c, h.CasRef(bytes))
    ensures GetBytes(c, h.CasRef(bytes)) == Ok(bytes)
    ensures ResolveAttest(c, h.AttestRef(bytes)) == Ok(Some(h.CasRef(bytes)))
  {
    hide Show, Parse, WellFormed;
    ParseIffShow(Show(h.CasRef(bytes)), h.CasRef(bytes));
  }

  class LocalCAS {
    const hashing: Hashing
    var blobs: map<string, string>
    var attestToCas: map<string, string>

    ghost function Value(): Cas
      reads this
    {
      Cas(blobs, attestToCas)
    }

    constructor (hashing: Hashing)
      ensures this.hashing == hashing && Value() == Cas(map[], map[])
    {
      this.hashing := hashing;
      blobs, attestToCas := map[], map[];
    }

    method Put(payload: Json) returns (r: Result<StoredRefs, Violation>)
      modifies this
      ensures Value() == PutJson(hashing, old(Value()), payload).0
      ensures r == PutJson(hashing, old(Value()), payload).1
    {
      var canonical := hashing.canon(payload);
      if canonical.None? {
        return Err(NotCanonical);
      }
      var bytes := canonical.value;
      var cas, attest := hashing.CasRef(bytes), hashing.AttestRef(bytes);
      if cas.digest !in blobs {
        blobs := blobs[cas.digest := bytes];
      }
      var key, value := Show(attest), Show(cas);
      if key in attestToCas && attestToCas[key] != value {
        return Err(AliasConflict);
      }
      attestToCas := attestToCas[key := value];
      r := Ok(JsonRefs(hashing, bytes));
    }

    /** Whether the blob existed; the alias index is left alone. */
    method Delete(ref: HashRef) returns (r: Result<bool, Violation>)
      modifies this
      ensures !CasShaped(ref) ==> r == Err(RefShape) && unchanged(this)
      ensures CasShaped(ref) ==>
        && r == Ok(ref.digest in old(blobs))
        && blobs == old(blobs) - {ref.digest}
        && attestToCas == old(attestToCas)
    {
      if !CasShaped(ref) {
        return Err(RefShape);
      }
      if ref.digest !in blobs {
        return Ok(false);
      }
      blobs := blobs - {ref.digest};
      r := Ok(true);
    }
  }
}
