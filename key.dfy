/**
 * Key derivation as `XKit.key` does it: the password's SHA-512 digest seeds one
 * random source, and a key generator of the family named before the first `/`
 * of the algorithm draws the key and then the IV from that one source.
 * The primitives are the platform's and are passed in, uninterpreted, over an
 * abstract random-generator state `S`.
 */
module KeyDerivation {
  import opened Wrappers
  import opened Bytes
  import opened JavaSplit

  /** The defaults XKit inherits from `XConstants`; their values are not part of this model. */
  datatype XConstants = XConstants(defaultAlgorithm: string, defaultKeysize: int, defaultIvsize: int)

  /** The platform's cryptographic primitives, kept uninterpreted. */
  datatype Primitives<!S> = Primitives(
    // `MessageDigest.getInstance("SHA-512")` succeeds
    sha512Available: bool,
    // `MessageDigest.digest`
    sha512: seq<byte> -> seq<byte>,
    // `new XSecureRandom(seed)`
    newRandom: seq<byte> -> S,
    // `KeyGenerator.getInstance(name)` succeeds
    hasGenerator: string -> bool,
    // `KeyGenerator.init(size, random)` accepts the size for the family
    acceptsSize: (string, int) -> bool,
    // `generateKey().getEncoded()` for a family and size, with the random state it leaves behind
    generateKey: (string, int, S) -> (seq<byte>, S)
  )

  /** Why `key` throws: no SHA-512, an algorithm of `/` only, an unknown family, a rejected size. */
  datatype KeyError =
    | DigestUnavailable
    | NoBaseName
    | UnsupportedAlgorithm(family: string)
    | InvalidKeySize(size: int)

  /** `SymmetricSecureKey`: the full algorithm string, the key size, the key and the IV; not the IV size. */
  datatype XKey = SymmetricSecureKey(algorithm: string, keysize: int, encoded: seq<byte>, iv: seq<byte>)

  /** The random state that seeds both draws for a password. */
  function Seeded<S>(p: Primitives<S>, password: seq<byte>): S
  {
    p.newRandom(p.sha512(password))
  }

  /** Reference definition: the bytes of successive key generations of the given sizes, all from one advancing random state. */
  function Draws<S>(p: Primitives<S>, family: string, sizes: seq<int>, s: S): (r: seq<seq<byte>>)
    ensures |r| == |sizes|
  {
    if sizes == [] then []
    else
      var (bytes, next) := p.generateKey(family, sizes[0], s);
      [bytes] + Draws(p, family, sizes[1..], next)
  }

  /** The random state left after those draws. */
  function StateAfter<S>(p: Primitives<S>, family: string, sizes: seq<int>, s: S): S
  {
    if sizes == [] then s
    else StateAfter(p, family, sizes[1..], p.generateKey(family, sizes[0], s).1)
  }

  /**
   * `key(algorithm, keysize, ivsize, password)`, step by step as the platform runs it.
   * A missing SHA-512 is reported before anything else; a record keeps the full
   * algorithm string and the key size, and exists only for a family that has a
   * generator accepting both sizes.
   */
  function Derive<S>(p: Primitives<S>, algorithm: string, keysize: int, ivsize: int, password: seq<byte>): (r: Result<XKey, KeyError>)
    ensures !p.sha512Available ==> r == Failure(DigestUnavailable)
    ensures r == Failure(NoBaseName) <==> p.sha512Available && BaseName(algorithm).None?
    ensures r.Success? ==>
      && r.value.algorithm == algorithm && r.value.keysize == keysize
      && BaseName(algorithm).Some? && p.hasGenerator(BaseName(algorithm).value)
      && p.acceptsSize(BaseName(algorithm).value, keysize) && p.acceptsSize(BaseName(algorithm).value, ivsize)
  {
    if !p.sha512Available then Failure(DigestUnavailable)
    else
      var seed := p.sha512(password);
      match BaseName(algorithm)
      case None => Failure(NoBaseName)
      case Some(family) =>
        if !p.hasGenerator(family) then Failure(UnsupportedAlgorithm(family))
        else
          var random := p.newRandom(seed);
          if !p.acceptsSize(family, keysize) then Failure(InvalidKeySize(keysize))
          else
            var (key, afterKey) := p.generateKey(family, keysize, random);
            if !p.acceptsSize(family, ivsize) then Failure(InvalidKeySize(ivsize))
            else
              var (iv, _) := p.generateKey(family, ivsize, afterKey);
              Success(SymmetricSecureKey(algorithm, keysize, key, iv))
  }

  /** The key generator returns `size / 8` bytes for every size it accepts. */
  ghost predicate WholeBytes<S(!new)>(p: Primitives<S>)
  {
    forall family, size, s :: p.acceptsSize(family, size) ==> |p.generateKey(family, size, s).0| == size / 8
  }

  /** Drawing `a` then `b` is drawing `a + b`: the later draws start where the earlier ones stopped. */
  lemma {:induction false} DrawsAppend<S>(p: Primitives<S>, family: string, a: seq<int>, b: seq<int>, s: S)
    ensures Draws(p, family, a + b, s) == Draws(p, family, a, s) + Draws(p, family, b, StateAfter(p, family, a, s))
    ensures StateAfter(p, family, a + b, s) == StateAfter(p, family, b, StateAfter(p, family, a, s))
    decreases |a|
  {
    if a == [] {
      assert a + b == b;
    } else {
      var next := p.generateKey(family, a[0], s).1;
      assert (a + b)[0] == a[0];
      assert (a + b)[1..] == a[1..] + b;
      DrawsAppend(p, family, a[1..], b, next);
    }
  }

  /** The `k`-th draw starts from the state the first `k` draws left behind. */
  lemma DrawsAt<S>(p: Primitives<S>, family: string, sizes: seq<int>, s: S, k: nat)
    requires k < |sizes|
    ensures Draws(p, family, sizes, s)[k] ==
      p.generateKey(family, sizes[k], StateAfter(p, family, sizes[..k], s)).0
  {
    assert sizes == sizes[..k] + sizes[k..];
    DrawsAppend(p, family, sizes[..k], sizes[k..], s);
  }

  /** `key` succeeds exactly when SHA-512 exists, the algorithm has a family, the family has a generator and both sizes are accepted. */
  lemma DeriveSucceeds<S>(p: Primitives<S>, algorithm: string, keysize: int, ivsize: int, password: seq<byte>)
    ensures Derive(p, algorithm, keysize, ivsize, password).Success? <==>
      p.sha512Available && BaseName(algorithm).Some? &&
      p.hasGenerator(BaseName(algorithm).value) &&
      p.acceptsSize(BaseName(algorithm).value, keysize) &&
      p.acceptsSize(BaseName(algorithm).value, ivsize)
  {
  }

  /**
   * The record holds the full algorithm and the key size, and its key and IV are
   * the two draws, in that order, from the one random state seeded by the digest.
   */
  lemma DeriveRecord<S>(p: Primitives<S>, algorithm: string, keysize: int, ivsize: int, password: seq<byte>)
    requires Derive(p, algorithm, keysize, ivsize, password).Success?
    ensures var k := Derive(p, algorithm, keysize, ivsize, password).value;
      var family := BaseName(algorithm).value;
      && k.algorithm == algorithm && k.keysize == keysize
      && [k.encoded, k.iv] == Draws(p, family, [keysize, ivsize], Seeded(p, password))
      && k.iv == Draws(p, family, [ivsize], StateAfter(p, family, [keysize], Seeded(p, password)))[0]
  {
  }

  /** The key draw comes first: the key is the same whatever is drawn after it. */
  lemma KeyIsFirstDraw<S>(p: Primitives<S>, algorithm: string, keysize: int, ivsize: int, password: seq<byte>, later: seq<int>)
    requires Derive(p, algorithm, keysize, ivsize, password).Success?
    ensures var family := BaseName(algorithm).value;
      Derive(p, algorithm, keysize, ivsize, password).value.encoded ==
      Draws(p, family, [keysize] + later, Seeded(p, password))[0]
  {
  }

  /** The IV size is not stored, and it does not influence the algorithm, key size or key bytes. */
  lemma DeriveIgnoresIvSize<S>(p: Primitives<S>, algorithm: string, keysize: int, ivsize1: int, ivsize2: int, password: seq<byte>)
    requires Derive(p, algorithm, keysize, ivsize1, password).Success?
    requires Derive(p, algorithm, keysize, ivsize2, password).Success?
    ensures var k1 := Derive(p, algorithm, keysize, ivsize1, password).value;
      var k2 := Derive(p, algorithm, keysize, ivsize2, password).value;
      k1.algorithm == k2.algorithm && k1.keysize == k2.keysize && k1.encoded == k2.encoded
  {
  }

  /** Only the family before the first `/` reaches the generator: algorithms with one family give one key and IV. */
  lemma DeriveUsesFamilyOnly<S>(p: Primitives<S>, a1: string, a2: string, keysize: int, ivsize: int, password: seq<byte>)
    requires BaseName(a1) == BaseName(a2)
    ensures Derive(p, a2, keysize, ivsize, password) ==
      match Derive(p, a1, keysize, ivsize, password)
      case Success(k) => Success(k.(algorithm := a2))
      case Failure(e) => Failure(e)
  {
  }

  /** No salt: the password enters only through its digest, so passwords with one digest give one key. */
  lemma DeriveDependsOnDigest<S>(p: Primitives<S>, algorithm: string, keysize: int, ivsize: int, pw1: seq<byte>, pw2: seq<byte>)
    requires p.sha512(pw1) == p.sha512(pw2)
    ensures Derive(p, algorithm, keysize, ivsize, pw1) == Derive(p, algorithm, keysize, ivsize, pw2)
  {
  }

  /** With a generator that returns whole bytes, the key has `keysize / 8` bytes and the IV `ivsize / 8`. */
  lemma DeriveSizes<S(!new)>(p: Primitives<S>, algorithm: string, keysize: int, ivsize: int, password: seq<byte>)
    requires WholeBytes(p)
    requires Derive(p, algorithm, keysize, ivsize, password).Success?
    ensures |Derive(p, algorithm, keysize, ivsize, password).value.encoded| == keysize / 8
    ensures |Derive(p, algorithm, keysize, ivsize, password).value.iv| == ivsize / 8
  {
  }

  /** An algorithm string made of `/` only fails before any generator is looked up. */
  lemma DeriveSlashesOnly<S>(p: Primitives<S>, algorithm: string, keysize: int, ivsize: int, password: seq<byte>)
    requires p.sha512Available
    requires algorithm != [] && forall k :: 0 <= k < |algorithm| ==> algorithm[k] == '/'
    ensures Derive(p, algorithm, keysize, ivsize, password) == Failure(NoBaseName)
  {
    BaseNameIsPrefix(algorithm, 0);
  }

  /** `XSecureRandom`: a random source whose whole output is fixed by its seed. */
  class XSecureRandom<S> {
    var state: S

    constructor (p: Primitives<S>, seed: seq<byte>)
      ensures state == p.newRandom(seed)
    {
      state := p.newRandom(seed);
    }
  }

  /** `javax.crypto.KeyGenerator` for one family: `init` fixes the size and the random source, `generateKey` draws from it. */
  class KeyGenerator<S> {
    const p: Primitives<S>
    const algorithm: string
    var keysize: int
    var random: XSecureRandom?<S>

    /** `KeyGenerator.getInstance(algorithm)` where the platform has a generator for it. */
    constructor GetInstance(p: Primitives<S>, algorithm: string)
      requires p.hasGenerator(algorithm)
      ensures this.p == p && this.algorithm == algorithm && random == null
    {
      this.p := p;
      this.algorithm := algorithm;
      keysize := 0;
      random := null;
    }

    /** `init(keysize, random)`: accepted sizes are stored with the source; a rejected one changes nothing. */
    method Init(keysize: int, random: XSecureRandom<S>) returns (accepted: bool)
      modifies this
      ensures accepted == p.acceptsSize(algorithm, keysize)
      ensures accepted ==> this.keysize == keysize && this.random == random
      ensures !accepted ==> this.keysize == old(this.keysize) && this.random == old(this.random)
    {
      accepted := p.acceptsSize(algorithm, keysize);
      if accepted {
        this.keysize := keysize;
        this.random := random;
      }
    }

    /** `generateKey().getEncoded()`: the key bytes, advancing the random source. */
    method GenerateKey() returns (encoded: seq<byte>)
      requires random != null
      modifies random
      ensures (encoded, random.state) == p.generateKey(algorithm, keysize, old(random.state))
    {
      var (bytes, next) := p.generateKey(algorithm, keysize, random.state);
      encoded := bytes;
      random.state := next;
    }
  }

  /** `key(algorithm, keysize, ivsize, password)`. */
  method Key<S>(p: Primitives<S>, algorithm: string, keysize: int, ivsize: int, password: seq<byte>)
    returns (r: Result<XKey, KeyError>)
    ensures r == Derive(p, algorithm, keysize, ivsize, password)
  {
    if !p.sha512Available {
      return Failure(DigestUnavailable);
    }
    var seed := p.sha512(password);
    var parts := Split(algorithm, '/');
    if parts == [] {
      return Failure(NoBaseName);
    }
    var family := parts[0];
    if !p.hasGenerator(family) {
      return Failure(UnsupportedAlgorithm(family));
    }
    var generator := new KeyGenerator.GetInstance(p, family);
    var random := new XSecureRandom(p, seed);
    var accepted := generator.Init(keysize, random);
    if !accepted {
      return Failure(InvalidKeySize(keysize));
    }
    var key := generator.GenerateKey();
    accepted := generator.Init(ivsize, random);
    if !accepted {
      return Failure(InvalidKeySize(ivsize));
    }
    var iv := generator.GenerateKey();
    return Success(SymmetricSecureKey(algorithm, keysize, key, iv));
  }

  /** `key(password)`: the default algorithm, key size and IV size. */
  method KeyFromPassword<S>(c: XConstants, p: Primitives<S>, password: seq<byte>) returns (r: Result<XKey, KeyError>)
    ensures r == Derive(p, c.defaultAlgorithm, c.defaultKeysize, c.defaultIvsize, password)
  {
    r := Key(p, c.defaultAlgorithm, c.defaultKeysize, c.defaultIvsize, password);
  }

  /** `key(algorithm, password)`: the default key size and IV size. */
  method KeyWithAlgorithm<S>(c: XConstants, p: Primitives<S>, algorithm: string, password: seq<byte>)
    returns (r: Result<XKey, KeyError>)
    ensures r == Derive(p, algorithm, c.defaultKeysize, c.defaultIvsize, password)
  {
    r := Key(p, algorithm, c.defaultKeysize, c.defaultIvsize, password);
  }

  /** `key(algorithm, keysize, password)`: the default IV size. */
  method KeyWithKeysize<S>(c: XConstants, p: Primitives<S>, algorithm: string, keysize: int, password: seq<byte>)
    returns (r: Result<XKey, KeyError>)
    ensures r == Derive(p, algorithm, keysize, c.defaultIvsize, password)
  {
    r := Key(p, algorithm, keysize, c.defaultIvsize, password);
  }

  /** Two derivations from the same inputs, each with its own generator and random source, give the same outcome. */
  method KeyIsReproducible<S>(p: Primitives<S>, algorithm: string, keysize: int, ivsize: int, password: seq<byte>)
    returns (first: Result<XKey, KeyError>, second: Result<XKey, KeyError>)
    ensures first == second
  {
    first := Key(p, algorithm, keysize, ivsize, password);
    second := Key(p, algorithm, keysize, ivsize, password);
  }
}
