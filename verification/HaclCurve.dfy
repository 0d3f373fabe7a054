/** curve25519_generic of src/curve25519-hacl64.h and the public-key derivation
    of src/curve25519.c, against the X25519 function of RFC 7748. */
module HaclCurve {
  import opened Machine
  import opened Field
  import opened Ladder
  import opened LittleEndian
  import opened Clamping
  import opened HaclArith
  import opened HaclField
  import opened HaclLadder
  import opened HaclFormat

  /** The u-coordinate that 32 bytes encode: the top bit is ignored, and values
      at or above P are taken modulo P. */
  ghost function DecodeU(s: seq<u8>): Fe {
    Red(LE(s) % (P + 19))
  }

  /** x / z of a point, as 32 bytes. */
  method ScalarOfPoint(scalar: array<u8>, point: Point)
    requires scalar.Length == 32 && Shape(point) && NormalPoint(point)
    modifies scalar
    ensures LE(scalar[..]) == Mul(Elem(point.x), Pow(Elem(point.z), P - 2))
  {
    hide Val, Red, Mul, Pow, LE;
    var zmone := new u64[5];
    var sc := new u64[5];
    CRecip(zmone, point.z);
    FMul(sc, point.x, zmone);
    FContract(scalar, sc);
  }

  /** For every secret and every base point the bytes written are those of
      X25519, although the ladder runs over 256 bits. */
  method Curve25519Generic(mypublic: array<u8>, secret: array<u8>, basepoint: array<u8>)
    requires mypublic.Length == 32 && secret.Length == 32 && basepoint.Length == 32
    modifies mypublic
    ensures LE(mypublic[..]) == X25519(old(ClampedValue(secret[..])), old(DecodeU(basepoint[..])))
  {
    hide Val, Red, Mul, Pow, LE, Eager, Deferred, X25519, ClampedValue;
    ghost var k, u := ClampedValue(secret[..]), DecodeU(basepoint[..]);
    var x0 := new u64[5];
    FExpand(x0, basepoint);
    var z := new u64[5] [1, 0, 0, 0, 0];
    var q := Point(x0, z);
    var e := new u8[32](i requires 0 <= i < 32 reads secret => secret[i]);
    assert e[..] == secret[..];
    ClampSecret(e);
    var nq := NewPoint(1);
    LadderCMult(nq, e, q);
    ScalarOfPoint(mypublic, nq);
    AgreesWithRfc(u, k, old(secret[..]));
  }

  lemma AgreesWithRfc(u: Fe, k: nat, secret: seq<u8>)
    requires |secret| == 32 && k == ClampedValue(secret)
    ensures Affine(Eager(u, k, 256, Start(u))) == X25519(k, u)
  {
    hide Mul, Pow, LE, Eager, Deferred, Affine, X25519, Clamp, Bit;
    LEBound(secret);
    ClampedBits(LE(secret));
    LeadingZeroBit(u, k);
  }

  /** The base point of the curve, u = 9. */
  lemma BasePoint(s: seq<u8>)
    requires |s| == 32 && s[0] == 9 && forall i :: 1 <= i < 32 ==> s[i] == 0
    ensures DecodeU(s) == 9
  {
    ZeroTail(s[1..]);
    assert LE(s) == 9;
  }

  lemma {:induction false} ZeroTail(s: seq<u8>)
    requires forall i :: 0 <= i < |s| ==> s[i] == 0
    ensures LE(s) == 0
  {
    if s != [] {
      ZeroTail(s[1..]);
    }
  }

  /** Public keys are X25519(secret, 9), for every secret. */
  method GeneratePublic(pub: array<u8>, secret: array<u8>)
    requires pub.Length == 32 && secret.Length == 32
    modifies pub
    ensures LE(pub[..]) == X25519(old(ClampedValue(secret[..])), 9)
  {
    hide Red, Mul, Pow, LE, X25519, ClampedValue;
    var basepoint := new u8[32](i => if i == 0 then 9 else 0);
    BasePoint(basepoint[..]);
    Curve25519Generic(pub, secret, basepoint);
  }
}
