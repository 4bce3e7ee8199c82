/**
  The two wire formats of an entry's wrapped data key.

  The primitives are parameters: X25519, ML-KEM-768, the key derivation and AES-GCM are
  known by the laws of correct use only.
  */
module DataKey {
  import opened Prelude

  const X25519_LEN: nat := 32
  const MLKEM_PUB_LEN: nat := 1184
  const MLKEM_CT_LEN: nat := 1088
  const NONCE_LEN: nat := 12
  const TAG_LEN: nat := 16
  const HYBRID_MIN: nat := X25519_LEN + MLKEM_CT_LEN

  datatype Primitives = Primitives(
    pubOf: Bytes -> Bytes,                           // X25519 public key of a private key
    agree: (Bytes, Bytes) -> Option<Bytes>,          // X25519 shared secret of a private and a public key
    kemKey: Bytes -> bool,                           // private keys the ML-KEM generator yields
    kemPub: Bytes -> Bytes,                          // ML-KEM public key of a private key
    encapsulate: (Bytes, Bytes) -> Option<(Bytes, Bytes)>, // (ciphertext, secret) for a public key and randomness
    decapsulate: (Bytes, Bytes) -> Option<Bytes>,    // secret of a private key and a ciphertext
    combine: (Bytes, Bytes) -> Bytes,                // hybridKDF
    seal: (Bytes, Bytes, Bytes) -> Option<Bytes>,    // AES-GCM of key, nonce and plaintext: nonce||ciphertext||tag
    open: (Bytes, Bytes) -> Option<Bytes>)           // and back

  /** Both ends of a key agreement get the same 32-byte secret. */
  ghost predicate Agree(p: Primitives, a: Bytes, b: Bytes) {
    var s := p.agree(a, p.pubOf(b));
    |p.pubOf(a)| == X25519_LEN && s.Some? && |s.value| == 32 && s == p.agree(b, p.pubOf(a))
  }

  /** A generated ML-KEM key recovers what was encapsulated to it. */
  ghost predicate Encapsulates(p: Primitives, k: Bytes, r: Bytes) {
    var e := p.encapsulate(p.kemPub(k), r);
    p.kemKey(k) ==>
      && |p.kemPub(k)| == MLKEM_PUB_LEN
      && e.Some? && |e.value.0| == MLKEM_CT_LEN
      && p.decapsulate(k, e.value.0) == Some(e.value.1)
  }

  /** AES-GCM opens what it sealed and adds nonce and tag. */
  ghost predicate Seals(p: Primitives, key: Bytes, nonce: Bytes, plain: Bytes) {
    |key| == 32 && |nonce| == NONCE_LEN ==>
      var c := p.seal(key, nonce, plain);
      c.Some? && |c.value| == NONCE_LEN + |plain| + TAG_LEN && p.open(key, c.value) == Some(plain)
  }

  /** The laws of correct use; nothing is said about secrecy. */
  ghost predicate Lawful(p: Primitives) {
    && (forall a, b :: Agree(p, a, b))
    && (forall k, r :: Encapsulates(p, k, r))
    && (forall a, b :: |p.combine(a, b)| == 32)
    && (forall key, nonce, plain :: Seals(p, key, nonce, plain))
  }

  /** The randomness of one wrapping. */
  datatype Coins = Coins(ephPriv: Bytes, kem: Bytes, nonce: Bytes)

  function Decrypt(p: Primitives, key: Bytes, data: Bytes): Option<Bytes> {
    if |data| < NONCE_LEN then None else p.open(key, data)
  }

  /** ephPub || ML-KEM ciphertext || sealed data key. */
  function EncryptDataKey(p: Primitives, dataKey: Bytes, pubX: Bytes, pubKem: Bytes, c: Coins): Option<Bytes> {
    var shared := p.agree(c.ephPriv, pubX);
    if shared.None? then None else
      var e := p.encapsulate(pubKem, c.kem);
      if e.None? then None else
        var sealed := p.seal(p.combine(shared.value, e.value.1), c.nonce, dataKey);
        if sealed.None? then None else Some(p.pubOf(c.ephPriv) + e.value.0 + sealed.value)
  }

  /** ephPub || sealed data key: what the app writes for an account without a post-quantum key. */
  function EncryptLegacy(p: Primitives, dataKey: Bytes, pubX: Bytes, c: Coins): Option<Bytes> {
    var shared := p.agree(c.ephPriv, pubX);
    if shared.None? then None else
      var sealed := p.seal(shared.value, c.nonce, dataKey);
      if sealed.None? then None else Some(p.pubOf(c.ephPriv) + sealed.value)
  }

  /** The format is told by the length alone. */
  predicate IsHybrid(wrapped: Bytes) {
    |wrapped| >= HYBRID_MIN
  }

  function DecryptDataKey(p: Primitives, wrapped: Bytes, privX: Bytes, privKem: Bytes): Option<Bytes> {
    if IsHybrid(wrapped) then DecryptHybrid(p, wrapped, privX, privKem) else DecryptX25519Only(p, wrapped, privX)
  }

  function DecryptHybrid(p: Primitives, wrapped: Bytes, privX: Bytes, privKem: Bytes): Option<Bytes>
    requires IsHybrid(wrapped)
  {
    var shared := p.agree(privX, wrapped[..32]);
    if shared.None? then None else
      var secret := p.decapsulate(privKem, wrapped[32..HYBRID_MIN]);
      if secret.None? then None else
        Decrypt(p, p.combine(shared.value, secret.value), wrapped[HYBRID_MIN..])
  }

  function DecryptX25519Only(p: Primitives, wrapped: Bytes, privX: Bytes): Option<Bytes> {
    if |wrapped| < 32 + 12 then None else
      var shared := p.agree(privX, wrapped[..32]);
      if shared.None? then None else Decrypt(p, shared.value, wrapped[32..])
  }

  /** Whatever the data key: its hybrid wrapping exists, is taken for one, and opens. */
  lemma HybridRoundTrip(p: Primitives, dataKey: Bytes, privX: Bytes, privKem: Bytes, c: Coins)
    requires Lawful(p) && p.kemKey(privKem) && |c.nonce| == NONCE_LEN
    ensures var w := EncryptDataKey(p, dataKey, p.pubOf(privX), p.kemPub(privKem), c);
      w.Some? && IsHybrid(w.value) && DecryptDataKey(p, w.value, privX, privKem) == Some(dataKey)
  {
    assert Agree(p, c.ephPriv, privX) && Encapsulates(p, privKem, c.kem);
    var shared := p.agree(c.ephPriv, p.pubOf(privX)).value;
    var e := p.encapsulate(p.kemPub(privKem), c.kem).value;
    var key := p.combine(shared, e.1);
    assert Seals(p, key, c.nonce, dataKey);
    var sealed := p.seal(key, c.nonce, dataKey).value;
    Sections(p.pubOf(c.ephPriv), e.0, sealed);
  }

  /** What others read from a wrapping: 32 bytes of an ephemeral public key, 1088 of ciphertext, and
    the data key sealed under both secrets. */
  lemma HybridLayout(p: Primitives, dataKey: Bytes, privX: Bytes, privKem: Bytes, c: Coins)
    requires Lawful(p) && p.kemKey(privKem) && |c.nonce| == NONCE_LEN
    ensures
      var w := EncryptDataKey(p, dataKey, p.pubOf(privX), p.kemPub(privKem), c);
      && w.Some? && |w.value| == 32 + 1088 + 12 + |dataKey| + 16
      && w.value[..32] == p.pubOf(c.ephPriv)
      && var x, kem := p.agree(privX, w.value[..32]), p.decapsulate(privKem, w.value[32..1120]);
      x.Some? && kem.Some? && p.open(p.combine(x.value, kem.value), w.value[1120..]) == Some(dataKey)
  {
    HybridRoundTrip(p, dataKey, privX, privKem, c);
    assert Agree(p, c.ephPriv, privX) && Encapsulates(p, privKem, c.kem);
    var shared := p.agree(c.ephPriv, p.pubOf(privX)).value;
    var e := p.encapsulate(p.kemPub(privKem), c.kem).value;
    var key := p.combine(shared, e.1);
    assert Seals(p, key, c.nonce, dataKey);
    Sections(p.pubOf(c.ephPriv), e.0, p.seal(key, c.nonce, dataKey).value);
  }

  lemma Sections(a: Bytes, b: Bytes, c: Bytes)
    requires |a| == 32 && |b| == MLKEM_CT_LEN
    ensures var w := a + b + c; w[..32] == a && w[32..HYBRID_MIN] == b && w[HYBRID_MIN..] == c
  {
  }

  /** The length tells the formats apart exactly for data keys below 1060 bytes, and then
    the app's wrapping opens without a post-quantum key. Data keys have 32. */
  lemma LegacyRoundTrip(p: Primitives, dataKey: Bytes, privX: Bytes, privKem: Bytes, c: Coins)
    requires Lawful(p) && |c.nonce| == NONCE_LEN
    ensures var w := EncryptLegacy(p, dataKey, p.pubOf(privX), c);
      && w.Some?
      && (!IsHybrid(w.value) <==> |dataKey| < 1060)
      && (!IsHybrid(w.value) ==> DecryptDataKey(p, w.value, privX, privKem) == Some(dataKey))
  {
    assert Agree(p, c.ephPriv, privX);
    var shared := p.agree(c.ephPriv, p.pubOf(privX)).value;
    assert Seals(p, shared, c.nonce, dataKey);
    var sealed := p.seal(shared, c.nonce, dataKey).value;
    var w := p.pubOf(c.ephPriv) + sealed;
    assert w[..32] == p.pubOf(c.ephPriv) && w[32..] == sealed;
  }

  /** No two generated ML-KEM keys open each other's wrappings: implicit rejection gives
    an unrelated secret, and AES-GCM refuses the key derived from it. */
  ghost predicate Separates(p: Primitives) {
    forall k, l, shared, r, nonce, plain :: Apart(p, k, l, shared, r, nonce, plain)
  }

  ghost predicate Apart(p: Primitives, k: Bytes, l: Bytes, shared: Bytes, r: Bytes, nonce: Bytes, plain: Bytes) {
    p.kemKey(k) && p.kemKey(l) && k != l && |nonce| == NONCE_LEN ==>
      var e := p.encapsulate(p.kemPub(k), r);
      e.Some? ==> var s := p.decapsulate(l, e.value.0);
        s.Some? ==> var sealed := p.seal(p.combine(shared, e.value.1), nonce, plain);
          sealed.Some? ==> p.open(p.combine(shared, s.value), sealed.value) == None
  }

  lemma ForeignKeyOpensNothing(p: Primitives, dataKey: Bytes, privX: Bytes, k: Bytes, l: Bytes, c: Coins)
    requires Lawful(p) && Separates(p) && p.kemKey(k) && p.kemKey(l) && k != l && |c.nonce| == NONCE_LEN
    ensures var w := EncryptDataKey(p, dataKey, p.pubOf(privX), p.kemPub(k), c);
      w.Some? && DecryptDataKey(p, w.value, privX, l) == None
  {
    assert Agree(p, c.ephPriv, privX) && Encapsulates(p, k, c.kem);
    var shared := p.agree(c.ephPriv, p.pubOf(privX)).value;
    var e := p.encapsulate(p.kemPub(k), c.kem).value;
    assert Seals(p, p.combine(shared, e.1), c.nonce, dataKey);
    var sealed := p.seal(p.combine(shared, e.1), c.nonce, dataKey).value;
    Sections(p.pubOf(c.ephPriv), e.0, sealed);
    assert Apart(p, k, l, shared, c.kem, c.nonce, dataKey);
  }

  /** Nor do two X25519 keys that agree on different secrets, in either format. */
  ghost predicate SeparatesX25519(p: Primitives) {
    forall a, b, e, secret, nonce, plain :: ApartX25519(p, a, b, e, secret, nonce, plain)
  }

  ghost predicate ApartX25519(p: Primitives, a: Bytes, b: Bytes, e: Bytes, secret: Bytes, nonce: Bytes, plain: Bytes) {
    var s, t := p.agree(a, p.pubOf(e)), p.agree(b, p.pubOf(e));
    s.Some? && t.Some? && s != t && |nonce| == NONCE_LEN ==>
      var hybrid, legacy := p.seal(p.combine(s.value, secret), nonce, plain), p.seal(s.value, nonce, plain);
      && (hybrid.Some? ==> p.open(p.combine(t.value, secret), hybrid.value) == None)
      && (legacy.Some? ==> p.open(t.value, legacy.value) == None)
  }

  /** The ML-KEM key alone opens nothing: both secrets are needed. */
  lemma ForeignX25519OpensNothing(p: Primitives, dataKey: Bytes, a: Bytes, b: Bytes, privKem: Bytes, c: Coins)
    requires Lawful(p) && SeparatesX25519(p) && p.kemKey(privKem) && |c.nonce| == NONCE_LEN
    requires p.agree(a, p.pubOf(c.ephPriv)) != p.agree(b, p.pubOf(c.ephPriv))
    ensures var w := EncryptDataKey(p, dataKey, p.pubOf(a), p.kemPub(privKem), c);
      w.Some? && DecryptDataKey(p, w.value, b, privKem) == None
  {
    HybridRoundTrip(p, dataKey, a, privKem, c);
    assert Agree(p, c.ephPriv, a) && Agree(p, c.ephPriv, b) && Encapsulates(p, privKem, c.kem);
    var shared := p.agree(c.ephPriv, p.pubOf(a)).value;
    var e := p.encapsulate(p.kemPub(privKem), c.kem).value;
    assert Seals(p, p.combine(shared, e.1), c.nonce, dataKey);
    Sections(p.pubOf(c.ephPriv), e.0, p.seal(p.combine(shared, e.1), c.nonce, dataKey).value);
    assert ApartX25519(p, a, b, c.ephPriv, e.1, c.nonce, dataKey);
  }

  lemma ForeignX25519OpensNoLegacyKey(p: Primitives, dataKey: Bytes, a: Bytes, b: Bytes, privKem: Bytes, c: Coins)
    requires Lawful(p) && SeparatesX25519(p) && |dataKey| < 1060 && |c.nonce| == NONCE_LEN
    requires p.agree(a, p.pubOf(c.ephPriv)) != p.agree(b, p.pubOf(c.ephPriv))
    ensures var w := EncryptLegacy(p, dataKey, p.pubOf(a), c);
      w.Some? && DecryptDataKey(p, w.value, b, privKem) == None
  {
    LegacyRoundTrip(p, dataKey, a, privKem, c);
    assert Agree(p, c.ephPriv, a) && Agree(p, c.ephPriv, b);
    var shared := p.agree(c.ephPriv, p.pubOf(a)).value;
    assert Seals(p, shared, c.nonce, dataKey);
    var sealed := p.seal(shared, c.nonce, dataKey).value;
    var w := p.pubOf(c.ephPriv) + sealed;
    assert w[..32] == p.pubOf(c.ephPriv) && w[32..] == sealed;
    assert ApartX25519(p, a, b, c.ephPriv, [], c.nonce, dataKey);
  }

  /** What is too short for its format is refused, whatever the keys; a legacy wrapping that is not
    opens to what its sealed part does. */
  lemma TruncatedOpensNothing(p: Primitives, wrapped: Bytes, privX: Bytes, privKem: Bytes)
    ensures |wrapped| < 32 + 12 || 32 + 1088 <= |wrapped| < 32 + 1088 + 12 ==>
      DecryptDataKey(p, wrapped, privX, privKem) == None
    ensures 32 + 12 <= |wrapped| < 32 + 1088 ==>
      var shared := p.agree(privX, wrapped[..32]);
      DecryptDataKey(p, wrapped, privX, privKem) == if shared.None? then None else p.open(shared.value, wrapped[32..])
  {
  }

  // --- An instance: the laws can be met together ----------------------------------

  function First(s: Bytes): bv8 {
    if s == [] then 0 else s[0]
  }

  function Second(s: Bytes): bv8 {
    if |s| < 2 then 0 else s[1]
  }

  /** Stand-ins for the primitives with 256 keys of either kind, told apart by a byte. */
  function Toy(): Primitives {
    Primitives(
      k => [First(k)] + Zeros(31),
      (k, pub) => Some([First(k) ^ First(pub)] + Zeros(31)),
      k => |k| > 0 && k == [k[0]] + Zeros(2399),
      k => if k == [] then [] else [k[0]] + Zeros(1183),
      (pub: Bytes, _) => if |pub| != 1184 then None else Some(([pub[0]] + Zeros(1087), [pub[0]] + Zeros(31))),
      (k: Bytes, ct: Bytes) => if k == [] || ct == [] then None
        else Some([k[0], if k[0] == ct[0] then 0 else 1] + Zeros(30)),
      (shared: Bytes, secret: Bytes) => [First(secret), Second(secret), First(shared)] + Zeros(29),
      (key: Bytes, nonce: Bytes, plain: Bytes) => if |key| != 32 then None else Some(nonce + plain + key[..16]),
      (key: Bytes, data: Bytes) => if |key| != 32 || |data| < 28 || data[|data| - 16..] != key[..16] then None
        else Some(data[12..|data| - 16]))
  }

  lemma ToyIsLawful()
    ensures Lawful(Toy()) && Separates(Toy()) && SeparatesX25519(Toy())
  {
    var p := Toy();
    forall a, b ensures Agree(p, a, b) {
      assert First(a) ^ First(b) == First(b) ^ First(a);
    }
    forall k, r ensures Encapsulates(p, k, r) {
      if p.kemKey(k) {
        assert [k[0], 0] + Zeros(30) == [k[0]] + Zeros(31);
      }
    }
    forall key: Bytes, nonce: Bytes, plain: Bytes ensures Seals(p, key, nonce, plain) {
      if |key| == 32 && |nonce| == NONCE_LEN {
        var data := nonce + plain + key[..16];
        assert data[|data| - 16..] == key[..16] && data[12..|data| - 16] == plain;
      }
    }
    forall k, l, shared, r, nonce, plain ensures Apart(p, k, l, shared, r, nonce, plain) {
      if p.kemKey(k) && p.kemKey(l) && k != l && |nonce| == NONCE_LEN {
        var e := p.encapsulate(p.kemPub(k), r).value;
        assert k[0] != l[0];
        var theirs, ours := p.combine(shared, e.1), p.combine(shared, p.decapsulate(l, e.0).value);
        ToyRefuses(theirs, ours, nonce, plain, 0);
      }
    }
    forall a, b, e, secret, nonce, plain ensures ApartX25519(p, a, b, e, secret, nonce, plain) {
      ToyKeepsApart(a, b, e, secret, nonce, plain);
    }
  }

  lemma ToyRefuses(theirs: Bytes, ours: Bytes, nonce: Bytes, plain: Bytes, k: nat)
    requires |theirs| == 32 && |ours| == 32 && |nonce| == NONCE_LEN && k < 16 && theirs[k] != ours[k]
    ensures Toy().open(ours, Toy().seal(theirs, nonce, plain).value) == None
  {
    var data := nonce + plain + theirs[..16];
    assert data[|data| - 16..] == theirs[..16];
    assert theirs[..16][k] != ours[..16][k];
  }

  lemma ToyKeepsApart(a: Bytes, b: Bytes, e: Bytes, secret: Bytes, nonce: Bytes, plain: Bytes)
    ensures ApartX25519(Toy(), a, b, e, secret, nonce, plain)
  {
    var p := Toy();
    var s, t := p.agree(a, p.pubOf(e)).value, p.agree(b, p.pubOf(e)).value;
    if s != t && |nonce| == NONCE_LEN {
      assert First(s) != First(t) by {
        assert s == [First(s)] + Zeros(31) && t == [First(t)] + Zeros(31);
      }
      ToyRefuses(p.combine(s, secret), p.combine(t, secret), nonce, plain, 2);
      ToyRefuses(s, t, nonce, plain, 0);
    }
  }
}
