/** The three public-key derivations of the repository agree. */
module Agreement {
  import opened Machine
  import opened Field
  import opened Ladder
  import opened LittleEndian
  import opened Clamping
  import HaclCurve
  import FiatCurve
  import EmbeddedCurve

  lemma {:induction false} LEInjective(s: seq<u8>, t: seq<u8>)
    requires |s| == |t| && LE(s) == LE(t)
    ensures s == t
  {
    if s != [] {
      assert s[0] == t[0];
      LEInjective(s[1..], t[1..]);
      assert s == [s[0]] + s[1..] && t == [t[0]] + t[1..];
    }
  }

  /** `wg pubkey` built for 64-bit machines, `wg pubkey` built without 128-bit
      integers, and the embeddable library write the same 32 bytes, for every
      private key. */
  method AllDerivations(wide: array<u8>, embedded: array<u8>, privateKey: array<u8>) returns (narrow: seq<u8>)
    requires wide.Length == 32 && embedded.Length == 32 && privateKey.Length == 32
    requires wide != embedded && wide != privateKey && embedded != privateKey
    modifies wide, embedded
    ensures wide[..] == embedded[..] == narrow
  {
    hide LE, X25519, ClampedValue, Red;
    HaclCurve.GeneratePublic(wide, privateKey);
    EmbeddedCurve.GeneratePublicKey(embedded, privateKey);
    var basepoint: seq<u8> := [9] + seq(31, i => 0);
    HaclCurve.BasePoint(basepoint);
    narrow := FiatCurve.Curve25519Generic(privateKey, basepoint);
    LEInjective(wide[..], embedded[..]);
    LEInjective(wide[..], narrow);
  }

  /** The two builds of curve25519, with and without 128-bit integers, write the
      same 32 bytes, for every secret and every base point. */
  method BothBuilds(wide: array<u8>, secret: array<u8>, basepoint: array<u8>) returns (narrow: seq<u8>)
    requires wide.Length == 32 && secret.Length == 32 && basepoint.Length == 32
    requires wide != secret && wide != basepoint
    modifies wide
    ensures wide[..] == narrow
  {
    hide LE, X25519, ClampedValue, Red;
    HaclCurve.Curve25519Generic(wide, secret, basepoint);
    narrow := FiatCurve.Curve25519Generic(secret, basepoint[..]);
    LEInjective(wide[..], narrow);
  }
}
