/**
 * assimp's texture types and their sampler names (texTypeToName in
 * Gamma/Sources/utils.hpp).
 */
module TextureTypes {
  import opened Wrappers

  /**
   * aiTextureType. `Other` stands for every value of the enumeration the
   * name table does not list.
   */
  datatype TextureType =
    | NoTexture | Diffuse | Specular | Ambient | Emissive | Height | Normals
    | Shininess | Opacity | Displacement | Lightmap | Reflection | Unknown | Other

  /** texTypeToName: the sampler name for a texture type. */
  function TexTypeToName(t: TextureType): (name: string)
    ensures |name| > 4 && name[..4] == "tex_"
  {
    match t
    case Ambient => "tex_ambient"
    case Diffuse => "tex_diffuse"
    case Displacement => "tex_displacement"
    case Emissive => "tex_emissive"
    case Height => "tex_height"
    case Lightmap => "tex_lightmap"
    case NoTexture => "tex_none"
    case Normals => "tex_normals"
    case Opacity => "tex_opacity"
    case Reflection => "tex_reflection"
    case Shininess => "tex_shininess"
    case Specular => "tex_specular"
    case Unknown => "tex_unknown"
    case Other => "tex_unknown"
  }

  /** The texture type a sampler name stands for; "tex_unknown" reads back as Unknown. */
  function NameToTexType(name: string): (r: Option<TextureType>)
    ensures r.Some? ==> TexTypeToName(r.value) == name && r.value != Other
  {
    if name == "tex_ambient" then Some(Ambient)
    else if name == "tex_diffuse" then Some(Diffuse)
    else if name == "tex_displacement" then Some(Displacement)
    else if name == "tex_emissive" then Some(Emissive)
    else if name == "tex_height" then Some(Height)
    else if name == "tex_lightmap" then Some(Lightmap)
    else if name == "tex_none" then Some(NoTexture)
    else if name == "tex_normals" then Some(Normals)
    else if name == "tex_opacity" then Some(Opacity)
    else if name == "tex_reflection" then Some(Reflection)
    else if name == "tex_shininess" then Some(Shininess)
    else if name == "tex_specular" then Some(Specular)
    else if name == "tex_unknown" then Some(Unknown)
    else None
  }

  /** Every listed type can be read back from its name. */
  lemma {:induction false} NameRoundTrip(t: TextureType)
    requires t != Other
    ensures NameToTexType(TexTypeToName(t)) == Some(t)
  {
  }

  /** Only names from the table read back, and only those that start with "tex_". */
  lemma {:induction false} NameToTexTypeOnlyTable(name: string)
    requires NameToTexType(name).Some?
    ensures exists t :: TexTypeToName(t) == name
    ensures |name| > 4 && name[..4] == "tex_"
  {
    var t := NameToTexType(name).value;
    assert TexTypeToName(t) == name;
  }

  /** The listed types have pairwise distinct names. */
  lemma {:induction false} NamesDistinct(t1: TextureType, t2: TextureType)
    requires t1 != Other && t2 != Other && t1 != t2
    ensures TexTypeToName(t1) != TexTypeToName(t2)
  {
    NameRoundTrip(t1);
    NameRoundTrip(t2);
  }

  /** "tex_unknown" is the name of Unknown and of every unlisted type, and of no other. */
  lemma {:induction false} UnknownName(t: TextureType)
    ensures TexTypeToName(t) == "tex_unknown" <==> t == Unknown || t == Other
  {
    if t != Unknown && t != Other {
      NamesDistinct(t, Unknown);
    }
  }
}
