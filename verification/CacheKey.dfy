/** Cache keys: the length-prefixed preimage that is hashed, and why it loses nothing. */
module CacheKeys {
  import opened Common

  newtype Byte = b: int | 0 <= b < 256
  type Bytes = seq<Byte>

  /** The byte of `-`. */
  const DASH: Byte := 0x2D

  /** Every isolation boundary of a query; strings are their UTF-8 bytes. */
  datatype CacheKeyInput = CacheKeyInput(
    version: Bytes, dataSource: Bytes, driver: Bytes, tenant: Option<Bytes>, namespace: Bytes,
    statementId: Bytes, sql: Bytes, parameters: Bytes)

  /** What the SQL parser reports of a statement it could parse. */
  datatype SqlMetadata = SqlMetadata(canonicalSql: Bytes, isSelect: bool, tableTags: set<Bytes>)

  type SqlParser = Bytes -> Option<SqlMetadata>

  datatype CacheKey = CacheKey(digest: string, namespace: Bytes, generation: nat, tableTags: set<Bytes>)

  // -------------------------------------------------------- little-endian u64

  function Pow256(width: nat): nat {
    if width == 0 then 1 else 256 * Pow256(width - 1)
  }

  function LittleEndian(n: nat, width: nat): (b: Bytes)
    ensures |b| == width
  {
    if width == 0 then [] else [(n % 256) as Byte] + LittleEndian(n / 256, width - 1)
  }

  function FromLittleEndian(b: Bytes): nat {
    if b == [] then 0 else b[0] as nat + 256 * FromLittleEndian(b[1..])
  }

  lemma {:induction false} LittleEndianRoundTrip(n: nat, width: nat)
    requires n < Pow256(width)
    ensures FromLittleEndian(LittleEndian(n, width)) == n
  {
    if width > 0 {
      LittleEndianRoundTrip(n / 256, width - 1);
      assert LittleEndian(n, width)[1..] == LittleEndian(n / 256, width - 1);
    }
  }

  lemma U64RoundTrip(n: nat)
    requires n <= U64_MAX
    ensures FromLittleEndian(LittleEndian(n, 8)) == n
  {
    assert Pow256(8) == U64_MAX + 1;
    LittleEndianRoundTrip(n, 8);
  }

  // ------------------------------------------------------------------ encoding

  /** `update_component`: eight bytes of length, then the bytes. */
  function Framed(component: Bytes): Bytes {
    LittleEndian(if |component| <= U64_MAX then |component| else U64_MAX, 8) + component
  }

  function Encode(components: seq<Bytes>): Bytes {
    if components == [] then [] else Framed(components[0]) + Encode(components[1..])
  }

  lemma {:induction false} EncodeSnoc(components: seq<Bytes>, last: Bytes)
    ensures Encode(components + [last]) == Encode(components) + Framed(last)
  {
    if components == [] {
      assert [last][1..] == [];
    } else {
      assert (components + [last])[1..] == components[1..] + [last];
      EncodeSnoc(components[1..], last);
    }
  }

  /** The seven text components, in the order they are hashed; a missing tenant is written `-`. */
  function TextComponents(input: CacheKeyInput, canonicalSql: Bytes): seq<Bytes> {
    [input.version, input.dataSource, input.driver, TenantBytes(input.tenant), input.namespace, input.statementId,
     canonicalSql]
  }

  function TenantBytes(tenant: Option<Bytes>): Bytes {
    match tenant case Some(t) => t case None => [DASH]
  }

  function Components(input: CacheKeyInput, canonicalSql: Bytes, generation: nat): seq<Bytes> {
    TextComponents(input, canonicalSql) + [LittleEndian(generation, 8), input.parameters]
  }

  function Preimage(input: CacheKeyInput, canonicalSql: Bytes, generation: nat): Bytes {
    Encode(Components(input, canonicalSql, generation))
  }

  /** The incremental hasher: it remembers what it was fed. */
  class Hasher {
    var fed: Bytes

    constructor ()
      ensures fed == []
    {
      fed := [];
    }

    method Update(bytes: Bytes)
      modifies this
      ensures fed == old(fed) + bytes
    {
      fed := fed + bytes;
    }

    method UpdateComponent(bytes: Bytes)
      modifies this
      ensures fed == old(fed) + Framed(bytes)
    {
      var len := if |bytes| <= U64_MAX then |bytes| else U64_MAX;
      Update(LittleEndian(len, 8));
      Update(bytes);
    }

    method Finalize(hash: Bytes -> string) returns (digest: string)
      ensures digest == hash(fed)
    {
      digest := hash(fed);
    }
  }

  /** `CacheKey::build`; it fails exactly when the SQL cannot be parsed. */
  method Build(input: CacheKeyInput, generation: nat, parse: SqlParser, hash: Bytes -> string)
    returns (r: Option<CacheKey>)
    ensures r.None? <==> parse(input.sql).None?
    ensures r.Some? ==>
              && r.value.digest == hash(Preimage(input, parse(input.sql).value.canonicalSql, generation))
              && r.value.namespace == input.namespace && r.value.generation == generation
              && r.value.tableTags == parse(input.sql).value.tableTags
  {
    var metadata := parse(input.sql);
    if metadata.None? {
      return None;
    }
    var hasher := new Hasher();
    var texts: seq<Bytes> := [input.version, input.dataSource, input.driver,
                              if input.tenant.Some? then input.tenant.value else [DASH],
                              input.namespace, input.statementId, metadata.value.canonicalSql];
    for i := 0 to |texts|
      invariant hasher.fed == Encode(texts[..i])
    {
      hasher.UpdateComponent(texts[i]);
      EncodeSnoc(texts[..i], texts[i]);
      assert texts[..i + 1] == texts[..i] + [texts[i]];
    }
    assert texts[..|texts|] == texts == TextComponents(input, metadata.value.canonicalSql);
    hasher.UpdateComponent(LittleEndian(generation, 8));
    EncodeSnoc(texts, LittleEndian(generation, 8));
    hasher.UpdateComponent(input.parameters);
    EncodeSnoc(texts + [LittleEndian(generation, 8)], input.parameters);
    assert texts + [LittleEndian(generation, 8)] + [input.parameters]
        == Components(input, metadata.value.canonicalSql, generation);
    var digest := hasher.Finalize(hash);
    r := Some(CacheKey(digest, input.namespace, generation, metadata.value.tableTags));
  }

  // ------------------------------------------------------------------ decoding

  /** Reads `count` framed components back, with what is left of the text. */
  function Decode(count: nat, text: Bytes): Option<(seq<Bytes>, Bytes)> {
    if count == 0 then Some(([], text))
    else if |text| < 8 then None
    else
      var len := FromLittleEndian(text[..8]);
      if |text| < 8 + len then None
      else
        match Decode(count - 1, text[8 + len..])
        case None => None
        case Some(rest) => Some(([text[8..8 + len]] + rest.0, rest.1))
  }

  /** Lengths that exist on a 64-bit machine. */
  ghost predicate Addressable(components: seq<Bytes>) {
    forall i | 0 <= i < |components| :: |components[i]| <= U64_MAX
  }

  lemma DecodeFramed(count: nat, c: Bytes, tail: Bytes)
    requires count > 0 && |c| <= U64_MAX
    ensures Decode(count, Framed(c) + tail) ==
            match Decode(count - 1, tail)
            case None => None
            case Some(rest) => Some(([c] + rest.0, rest.1))
  {
    var text := Framed(c) + tail;
    U64RoundTrip(|c|);
    assert text[..8] == LittleEndian(|c|, 8);
    assert text[8..8 + |c|] == c;
    assert text[8 + |c|..] == tail;
  }

  lemma {:induction false} DecodeEncode(components: seq<Bytes>, rest: Bytes)
    requires Addressable(components)
    ensures Decode(|components|, Encode(components) + rest) == Some((components, rest))
  {
    if components == [] {
      assert Encode(components) + rest == rest;
    } else {
      assert Encode(components) + rest == Framed(components[0]) + (Encode(components[1..]) + rest);
      DecodeEncode(components[1..], rest);
      DecodeFramed(|components|, components[0], Encode(components[1..]) + rest);
      assert [components[0]] + components[1..] == components;
    }
  }

  ghost predicate AddressableInput(input: CacheKeyInput, canonicalSql: Bytes) {
    Addressable(Components(input, canonicalSql, 0))
  }

  lemma AddressableAtAnyGeneration(input: CacheKeyInput, canonicalSql: Bytes, generation: nat)
    requires AddressableInput(input, canonicalSql)
    ensures Addressable(Components(input, canonicalSql, generation))
  {
    var c0, c := Components(input, canonicalSql, 0), Components(input, canonicalSql, generation);
    forall i | 0 <= i < |c| ensures |c[i]| <= U64_MAX {
      assert i != 7 ==> c[i] == c0[i];
    }
  }

  /** The queries that share a digest: equal in everything but `None` against `Some("-")` as tenant. */
  ghost predicate SameQuery(a: CacheKeyInput, canonicalA: Bytes, b: CacheKeyInput, canonicalB: Bytes) {
    && a.version == b.version && a.dataSource == b.dataSource && a.driver == b.driver
    && (a.tenant == b.tenant || {a.tenant, b.tenant} == {None, Some([DASH])})
    && a.namespace == b.namespace && a.statementId == b.statementId
    && canonicalA == canonicalB && a.parameters == b.parameters
  }

  /**
   * The preimage is injective up to the tenant default: two inputs share it if and only if they are the
   * same query at the same generation.
   */
  lemma PreimageIdentifiesQuery(
      a: CacheKeyInput, canonicalA: Bytes, generationA: nat, b: CacheKeyInput, canonicalB: Bytes, generationB: nat)
    requires generationA <= U64_MAX && generationB <= U64_MAX
    requires AddressableInput(a, canonicalA) && AddressableInput(b, canonicalB)
    ensures Preimage(a, canonicalA, generationA) == Preimage(b, canonicalB, generationB)
            <==> SameQuery(a, canonicalA, b, canonicalB) && generationA == generationB
  {
    var ca, cb := Components(a, canonicalA, generationA), Components(b, canonicalB, generationB);
    TenantDefault(a.tenant, b.tenant);
    assert SameQuery(a, canonicalA, b, canonicalB) && generationA == generationB ==> ca == cb;
    if Preimage(a, canonicalA, generationA) == Preimage(b, canonicalB, generationB) {
      AddressableAtAnyGeneration(a, canonicalA, generationA);
      AddressableAtAnyGeneration(b, canonicalB, generationB);
      DecodeEncode(ca, []);
      DecodeEncode(cb, []);
      assert Encode(ca) + [] == Encode(cb) + [];
      assert ca == cb;
      assert ca[0] == cb[0] && ca[1] == cb[1] && ca[2] == cb[2] && ca[3] == cb[3] && ca[4] == cb[4];
      assert ca[5] == cb[5] && ca[6] == cb[6] && ca[7] == cb[7] && ca[8] == cb[8];
      U64RoundTrip(generationA);
      U64RoundTrip(generationB);
    }
  }

  lemma TenantDefault(a: Option<Bytes>, b: Option<Bytes>)
    ensures TenantBytes(a) == TenantBytes(b) <==> a == b || {a, b} == {None, Some([DASH])}
  {
  }
}
