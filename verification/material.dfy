/**
 * Material data for shading and the texture bit mask
 * (Gamma/Sources/Material.hpp).
 */
module Materials {
  import opened Wrappers
  import opened Vectors
  import opened TextureTypes

  /** The TextureMask enumeration: one bit per kind of map a material can sample. */
  datatype TextureMask = Diffuse | Normal | Shininess | Metallic | Bump | Displacement | Emission

  /** The bit position of each mask value. */
  function BitIndex(m: TextureMask): (i: nat)
    ensures i < 7
  {
    match m
    case Diffuse => 0
    case Normal => 1
    case Shininess => 2
    case Metallic => 3
    case Bump => 4
    case Displacement => 5
    case Emission => 6
  }

  /** Exactly one bit of `b` is set. */
  predicate SingleBit(b: bv32)
  {
    b != 0 && b & (b - 1) == 0
  }

  /** The value of a TextureMask: `1U << index`. */
  function Bit(m: TextureMask): (b: bv32)
    ensures SingleBit(b) && b < 128
  {
    match m
    case Diffuse => 1
    case Normal => 2
    case Shininess => 4
    case Metallic => 8
    case Bump => 16
    case Displacement => 32
    case Emission => 64
  }

  /** Each value is the shift its bit index names. */
  lemma {:induction false} BitIsShift(m: TextureMask)
    ensures Bit(m) == (1 as bv32) << BitIndex(m)
  {
  }

  /** The seven values are distinct and share no bit. */
  lemma {:induction false} MaskBitsDistinct(m1: TextureMask, m2: TextureMask)
    requires m1 != m2
    ensures Bit(m1) != Bit(m2) && Bit(m1) & Bit(m2) == 0
  {
  }

  /** texTypeToMask: the mask bit for a texture type, or 0 for types with none. */
  function TexTypeToMask(t: TextureType): (r: bv32)
    ensures r == 0 || SingleBit(r)
    ensures r < 128
  {
    match t
    case Diffuse => Bit(TextureMask.Diffuse)
    case Normals => Bit(Normal)
    case Shininess => Bit(TextureMask.Shininess)
    case Unknown => Bit(Metallic)
    case Height => Bit(Bump)
    case Displacement => Bit(TextureMask.Displacement)
    case Emissive => Bit(Emission)
    case _ => 0
  }

  /** The texture type a mask value comes from, if any. */
  function MaskToTexType(m: TextureMask): (t: TextureType)
    ensures TexTypeToMask(t) == Bit(m)
  {
    match m
    case Diffuse => TextureType.Diffuse
    case Normal => Normals
    case Shininess => TextureType.Shininess
    case Metallic => Unknown
    case Bump => Height
    case Displacement => TextureType.Displacement
    case Emission => Emissive
  }

  /** A non-zero mask determines the texture type it was made from. */
  lemma {:induction false} TexTypeToMaskInverse(t: TextureType, m: TextureMask)
    ensures TexTypeToMask(t) == Bit(m) <==> t == MaskToTexType(m)
  {
  }

  /** Exactly the types without a mask value map to 0. */
  lemma {:induction false} TexTypeToMaskZero(t: TextureType)
    ensures TexTypeToMask(t) == 0 <==> t in {NoTexture, Specular, Ambient, Opacity, Lightmap, Reflection, Other}
  {
  }

  /** `a` and `b` have a set bit in common. */
  predicate Overlaps(a: bv32, b: bv32)
  {
    a & b != 0
  }

  lemma {:induction false} OrBelow(a: bv32, b: bv32)
    ensures a < 128 && b < 128 ==> a | b < 128
  {
  }

  lemma {:induction false} OrBit(a: bv32, b: bv32, bit: bv32)
    ensures Overlaps(a | b, bit) <==> Overlaps(a, bit) || Overlaps(b, bit)
  {
    assert (a | b) & bit == (a & bit) | (b & bit);
    OrZero(a & bit, b & bit);
  }

  lemma {:induction false} OrZero(x: bv32, y: bv32)
    ensures x | y == 0 <==> x == 0 && y == 0
  {
  }

  /** Material: the data needed for shading. */
  datatype Material = Material(kd: Vec3, metallic: real, alpha: real, texMask: bv32)

  /** Material(): grey diffuse colour, half metallic, half shininess, no texture maps. */
  function DefaultMaterial(): (m: Material)
    ensures m.texMask == 0
    ensures m.kd == Splat(0.6) && m.metallic == 0.5 && m.alpha == 0.5
  {
    Material(Splat(0.6), 0.5, 0.5, 0)
  }
}
