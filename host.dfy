/** What the resolver reads out of the host process. Every native pointer is an opaque
    address (`Ptr`, 0 for null) that is only ever compared; a pointer the resolver follows
    is modelled by the value found behind it, wrapped in `Option` where it may be null. */
module Host {
  import opened Wrappers
  import opened ByteStrings

  type Ptr = nat

  const Null: Ptr := 0

  type uint32 = x: int | 0 <= x < 0x1_0000_0000

  type uint16 = x: int | 0 <= x < 0x1_0000

  type uint8 = x: int | 0 <= x < 0x100

  /** `ResourceHandle`: its address (the identity half of a cache key), the file name
      it reports and the length the handle accessor returns for it. */
  datatype ResourceHandle = ResourceHandle(address: Ptr, fileName: seq<byte>, length: nat)

  /** `TextureResourceHandle`: a resource handle and the `Texture*` it loaded. */
  datatype TextureHandle = TextureHandle(resource: ResourceHandle, texture: Ptr)

  /** `ShaderPackageResourceHandle`: a resource handle and the `ShaderPackage*` it loaded. */
  datatype ShaderPackageHandle = ShaderPackageHandle(resource: ResourceHandle, shaderPackage: Ptr)

  /** One sampler of a loaded shader package: its id and the CRC of its declared name. */
  datatype Sampler = Sampler(id: uint32, crc: uint32)

  /** One row of `Material::Textures`: the sampler id it binds and the texture handle it holds. */
  datatype MaterialTexture = MaterialTexture(id: uint32, texture: Ptr)

  /** One texture slot of a material resource handle: its handle, `TexturePath(i)`,
      the DX11 addressing flag and the packed sampler-selector flags. */
  datatype TextureSlot = TextureSlot(handle: Option<TextureHandle>, path: seq<byte>, isDx11: bool, flags: bv16)

  /** `MaterialResourceHandle`: the shader package it uses (with `ShpkName`) and its texture slots. */
  datatype MaterialResourceHandle = MaterialResourceHandle(
    resource: ResourceHandle,
    shaderPackage: Option<ShaderPackageHandle>,
    shpkName: seq<byte>,
    textures: seq<TextureSlot>)

  /** `Material`: its address, its resource handle and its texture table. */
  datatype Material = Material(address: Ptr, resourceHandle: Option<MaterialResourceHandle>, textures: seq<MaterialTexture>)

  /** Render `Model`: its address, its model resource handle and its `MaterialCount` materials. */
  datatype Model = Model(address: Ptr, resourceHandle: Option<ResourceHandle>, materials: seq<Option<Material>>)

  /** `PartialSkeleton`: its address and its skeleton and skeleton-parameter handles. */
  datatype PartialSkeleton = PartialSkeleton(address: Ptr, skeletonHandle: Option<ResourceHandle>, parameterHandle: Option<ResourceHandle>)

  /** The equipment slots a resolve context can be created for. */
  datatype EquipSlot = MainHand | OffHand | Head | Body | Hands | Legs | Feet | Ears | Neck | Wrists | RFinger | LFinger

  /** `CharacterArmor`: the equipment set id (`Set.Id`) and its variant id (`Variant.Id`). */
  datatype CharacterArmor = CharacterArmor(setId: uint16, variantId: uint8)
}
