/** How a material names each of its textures when UI data is requested: the packed sampler
    selector, the fallback scan of the texture table, the sampler CRC and the three-way name
    precedence. */
module TextureNaming {
  import opened Wrappers
  import opened Formatting
  import opened Host

  /** What the shader-package file reader yields: the names of its samplers by CRC. */
  datatype ShaderFile = ShaderFile(samplerNames: map<uint32, string>)

  /** The "no index" value of the 5-bit selector fields. */
  const NoIndex: nat := 0x1F

  /** Selector field `k` (bits 5k to 5k+4) of the 16-bit texture flags. */
  function Field(flags: bv16, k: nat): (f: nat)
    requires k < 3
    ensures f <= 0x1F
  {
    ((flags >> (5 * k)) & 0x1F) as int
  }

  /** A selector field can be used when it is not "no index", points into the texture table,
      and the sampler id found there has not been used by an earlier texture. */
  predicate Usable(table: seq<MaterialTexture>, visited: set<uint32>, f: nat) {
    f != NoIndex && f < |table| && table[f].id !in visited
  }

  predicate Unvisited(table: seq<MaterialTexture>, visited: set<uint32>, f: nat) {
    f < |table| && table[f].id !in visited
  }

  /** The source's masks test the same fields `Field` extracts. */
  lemma FieldMasks(flags: bv16)
    ensures Field(flags, 0) == (flags & 0x001F) as int
    ensures Field(flags, 1) == ((flags >> 5) & 0x001F) as int
    ensures Field(flags, 2) == ((flags >> 10) & 0x001F) as int
    ensures (flags & 0x001F != 0x001F) == (Field(flags, 0) != NoIndex)
    ensures (flags & 0x03E0 != 0x03E0) == (Field(flags, 1) != NoIndex)
    ensures (flags & 0x7C00 != 0x7C00) == (Field(flags, 2) != NoIndex)
  {
  }

  /** `GetTextureIndex`: the first usable selector field, in field order, else `NoIndex`
      (`FieldMasks` ties each test to the source's mask). */
  function GetTextureIndex(table: seq<MaterialTexture>, flags: bv16, visited: set<uint32>): (r: nat)
    ensures r <= NoIndex
    ensures r == NoIndex <==> forall k | 0 <= k < 3 :: !Usable(table, visited, Field(flags, k))
    ensures r != NoIndex ==> exists k | 0 <= k < 3 ::
      (r == Field(flags, k) && Usable(table, visited, r) && forall j | 0 <= j < k :: !Usable(table, visited, Field(flags, j)))
  {
    var f0, f1, f2 := Field(flags, 0), Field(flags, 1), Field(flags, 2);
    assert forall k | 0 <= k < 3 :: Field(flags, k) == (if k == 0 then f0 else if k == 1 then f1 else f2);
    if Usable(table, visited, f0) then f0
    else if Usable(table, visited, f1) then f1
    else if Usable(table, visited, f2) then f2
    else NoIndex
  }

  /** `GetTextureSamplerId`: the sampler id of the first texture-table row that holds this
      texture handle and whose id is still unused. */
  function GetTextureSamplerId(table: seq<MaterialTexture>, texture: Ptr, visited: set<uint32>): (r: Option<uint32>)
    ensures r.Some? ==> r.value !in visited
    ensures r.Some? ==> exists i | 0 <= i < |table| ::
      (table[i].texture == texture && table[i].id == r.value
       && forall j | 0 <= j < i :: table[j].texture != texture || table[j].id in visited)
    ensures r.None? <==> forall i | 0 <= i < |table| :: table[i].texture != texture || table[i].id in visited
  {
    match FindFirst(table, (p: MaterialTexture) => p.texture == texture && p.id !in visited)
    case None => None
    case Some(i) => Some(table[i].id)
  }

  /** `GetSamplerCrcById`: the CRC of the first sampler of the package with this id. */
  function GetSamplerCrcById(samplers: seq<Sampler>, id: uint32): (r: Option<uint32>)
    ensures r.Some? ==> exists i | 0 <= i < |samplers| ::
      (samplers[i].id == id && samplers[i].crc == r.value && forall j | 0 <= j < i :: samplers[j].id != id)
    ensures r.None? <==> forall i | 0 <= i < |samplers| :: samplers[i].id != id
  {
    match FindFirst(samplers, (s: Sampler) => s.id == id)
    case None => None
    case Some(i) => Some(samplers[i].crc)
  }

  /** The name a texture gets, first success wins: the shader file's name for the sampler's CRC,
      then "Texture 0x" and the CRC in eight upper-case hex digits, then "Texture #" and the
      texture's position in the material. */
  function TextureName(file: Option<ShaderFile>, crc: Option<uint32>, i: nat): string
  {
    match crc
    case None => "Texture #" + Decimal(i)
    case Some(c) =>
      if file.Some? && c in file.value.samplerNames then file.value.samplerNames[c]
      else "Texture 0x" + X8(c)
  }

  /** The outcome of naming one texture: its name and the sampler id it used up, if any. */
  datatype Naming = Naming(name: string, consumed: Option<uint32>)

  /** The sampler id a texture is bound to: through its selector fields, else by the scan. */
  function SamplerIdOf(table: seq<MaterialTexture>, flags: bv16, texture: Ptr, visited: set<uint32>): (r: Option<uint32>)
    ensures r.Some? ==> r.value !in visited
    ensures r.Some? ==> exists i | 0 <= i < |table| :: table[i].id == r.value
  {
    var index := GetTextureIndex(table, flags, visited);
    if index != NoIndex then Some(table[index].id) else GetTextureSamplerId(table, texture, visited)
  }

  /** Naming texture `i` of a material: with no shader package there is nothing to look up;
      otherwise the sampler id found is consumed and its CRC drives the name. */
  function NameTexture(table: seq<MaterialTexture>, samplers: Option<seq<Sampler>>, file: Option<ShaderFile>,
                       flags: bv16, texture: Ptr, i: nat, visited: set<uint32>): (n: Naming)
    ensures n.consumed.Some? ==> n.consumed.value !in visited
    ensures n.consumed.Some? ==> exists j | 0 <= j < |table| :: table[j].id == n.consumed.value
    ensures samplers.None? ==> n.consumed.None?
  {
    if samplers.None? then Naming(TextureName(file, None, i), None)
    else match SamplerIdOf(table, flags, texture, visited)
      case None => Naming(TextureName(file, None, i), None)
      case Some(id) => Naming(TextureName(file, GetSamplerCrcById(samplers.value, id), i), Some(id))
  }

  /** The precedence is observable: a CRC the shader file knows gets the file's own name; a hex
      fallback name gives back the CRC it was made from; a positional fallback name gives back
      the texture's position. */
  lemma TextureNamePrecedence(file: Option<ShaderFile>, crc: Option<uint32>, i: nat)
    ensures crc.Some? && file.Some? && crc.value in file.value.samplerNames ==>
      TextureName(file, crc, i) == file.value.samplerNames[crc.value]
    ensures crc.Some? && (file.None? || crc.value !in file.value.samplerNames) ==>
      var name := TextureName(file, crc, i);
      |name| == 18 && name[..10] == "Texture 0x" && ParseHex(name[10..]) == crc.value
    ensures crc.None? ==>
      var name := TextureName(file, crc, i);
      name[..9] == "Texture #" && AllDigits(name[9..]) && ParseDecimal(name[9..]) == i
  {
    if crc.Some? && (file.None? || crc.value !in file.value.samplerNames) {
      var name := TextureName(file, crc, i);
      assert name[10..] == X8(crc.value);
      X8RoundTrip(crc.value);
    }
    if crc.None? {
      var name := TextureName(file, crc, i);
      assert name[9..] == Decimal(i);
      DecimalRoundTrip(i);
    }
  }
}
