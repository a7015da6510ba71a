# Resource-tree resolution, modelled in Dafny

Penumbra's resource tree shows which files a character has loaded. One resolve context walks the
host's resource handles for one equipment slot and turns each into a `ResourceNode`. Each node
holds the resource type, the object and handle addresses, the game path and the full path, and
it holds children.

- **Sharing.** A pass-wide cache keyed by (game path, handle address) makes every handle met
  along several routes yield one shared node. Model, material and skeleton nodes enter the cache
  only after their children are built.
- **Material textures.** When UI data is requested, a material's textures are named from the
  shader package's sampler tables. Each texture child is then a named copy of the cached node.
- **Filtering.** A three-valued path matcher filters game paths by the equipment being resolved.
- **UI names.** Display names are guessed from what the item identifier reports.

The model has these parts:

- `wrappers.dfy`: `Option` and a first-match search.
- `formatting.dfy`: the .NET formatting the resolver relies on: `{n}`, `{n:D4}`, `{n:X8}`,
  `Trim` and `StartsWith`. Each comes with its inverse or its defining property.
- `bytes.dfy`: byte strings with `LastIndexOf` and `IndexOf`.
- `host.dfy`: what the resolver reads out of the game, as values. Pointers are opaque addresses,
  with 0 for null. A pointer that is followed becomes the value behind it, wrapped in `Option`
  where it may be null.
- `game_paths.dfy`:
  - the DX11 texture-path rewrite, which inserts `--` after the last `/`;
  - `GetResourceHandlePath`, which strips a `|category|` prefix.
- `texture_naming.dfy`: the texture naming rules:
  - the three 5-bit selector fields of the texture flags;
  - the fallback scan of the material's texture table;
  - the sampler CRC lookup;
  - the three-way name precedence.
- `path_matcher.dfy`: `IsMatch`, `IsMatchEquipment`, `SafeGet`, the slash split, and
  `FilterGamePaths` as a loop.
- `ui_data.dfy`: `GuessUIDataFromPath` and `GuessModelUIData`.
- `resource_tree.dfy`: nodes, the cache, the pass-wide class `GlobalResolveContext` and what each
  builder promises.
  - The class keeps the cache as a `map` from key to node id. The nodes live in an arena, a `seq`
    indexed by node id.
  - A child list holds node ids, so two parents holding the same id share one node, as two
    references to one object do.
- `resolve_context.dfy`: the class `ResolveContext` with every builder as a method:
  - `GetOrCreateNode` and `CreateNode`;
  - the `CreateNodeFrom*` builders, with the material's texture loop and the model's material loop.

Every builder is proved against a specification predicate over the arena and the cache. The
predicates state these facts:

- Earlier nodes keep what they stand for; only names change.
- The cache only grows.
- The key of every new node is in the cache.
- A built node's children are, in order:
  - for a material: the shader package first, then one child per texture slot that yields a node;
  - for a model: one child per material that yields a node;
  - for a skeleton: the skeleton-parameter node.
- With UI data, children carry their names and fallback names.

`Dictionary.Add` throws on a key that is already present. Every builder that adds a key models
this as the outcome `DuplicateKey`. The state left at that point is the state the exception
leaves: the nodes built so far remain in the cache.

A path that stops right after `chara/accessory`, `chara/equipment`, `chara/weapon` or
`chara/monster` is ruled out, not left undecided: the missing segment reads as null and differs
from the expected directory or monster tag (see `PathMatcher.TruncatedKnownPathsAreRuledOut`).

Some collaborators are parameters of the pass, stored as constant function fields of
`GlobalResolveContext`:

- the game-path validity check of `Utf8GamePath.FromByteString` / `FromSpan` (`isGamePath`);
- `TreeBuildCache.ReadShaderPackage` (`readShaderPackage`);
- the sampler table found behind a `ShaderPackage*` (`samplersAt`).

The item identifier's answers are passed in as ordered lists, and so is `Slot.ToName()`.

## Model

P = `Penumbra/Interop/ResourceTree/ResolveContext.cs`; every source cell names that file.

| member | source | states |
|---|---|---|
| Wrappers.FindFirst | Penumbra/Interop/ResourceTree/ResolveContext.cs:183-191 | `FindFirst` on a span: the index found satisfies the predicate and no earlier element does; none is found exactly when no element satisfies it |
| Formatting.Decimal | Penumbra/Interop/ResourceTree/ResolveContext.cs:245 | `{i}` is a non-empty run of digits without a leading zero; a single digit exactly below ten |
| Formatting.DecimalRoundTrip | Penumbra/Interop/ResourceTree/ResolveContext.cs:245 | the digits `{i}` prints read back as `i`, so "Texture #i" and "Material #i" identify their position |
| Formatting.D4 | Penumbra/Interop/ResourceTree/ResolveContext.cs:318-331 | `{n:D4}` has at least four characters: digits for a non-negative value, a '-' then digits for a negative one |
| Formatting.D4Exact | Penumbra/Interop/ResourceTree/ResolveContext.cs:318-331 | `{n:D4}` is exactly the magnitude's digits zero-padded to four (wider when there are more digits), after a '-' for a negative value: width and value leave one string |
| Formatting.D4Injective | Penumbra/Interop/ResourceTree/ResolveContext.cs:318-331 | two ids format alike under `D4` only when they are equal, so comparing directory names compares set, variant and skeleton ids |
| Formatting.X8 | Penumbra/Interop/ResourceTree/ResolveContext.cs:240 | `{crc:X8}` is exactly eight upper-case hex digits |
| Formatting.X8RoundTrip | Penumbra/Interop/ResourceTree/ResolveContext.cs:240 | `{crc:X8}` is eight upper-case hex digits that read back as the CRC |
| Formatting.Trim | Penumbra/Interop/ResourceTree/ResolveContext.cs:369 | `Trim` yields a slice that neither starts nor ends with white space, and everything dropped before and after it is white space |
| Formatting.TrimExact | Penumbra/Interop/ResourceTree/ResolveContext.cs:369 | white space around a text with non-blank ends is exactly what `Trim` removes |
| Formatting.TrimIdempotent | Penumbra/Interop/ResourceTree/ResolveContext.cs:369 | trimming a trimmed name changes nothing |
| ByteStrings.LastIndexOf | Penumbra/Interop/ResourceTree/ResolveContext.cs:48 | the position of the last occurrence of the byte, or -1 exactly when it does not occur |
| ByteStrings.IndexOf | Penumbra/Interop/ResourceTree/ResolveContext.cs:394 | the first occurrence at or after the start position, or -1 when there is none there |
| GamePaths.Dx11TexturePath | Penumbra/Interop/ResourceTree/ResolveContext.cs:46-65 | no path exactly when the path has no '/' or fewer than two bytes after the last one; else the same directory, with a file name that starts with `--` (inserted unless already there) |
| GamePaths.Dx11TexturePathIdempotent | Penumbra/Interop/ResourceTree/ResolveContext.cs:52-64 | rewriting a rewritten path leaves it unchanged |
| GamePaths.Dx11TexturePathInserts | Penumbra/Interop/ResourceTree/ResolveContext.cs:54-58 | the rewrite returns the path itself, or the path two bytes longer with `--` right after the last '/' |
| GamePaths.ResourceHandlePath | Penumbra/Interop/ResourceTree/ResolveContext.cs:383-402 | empty for a null handle; a suffix of the file name; the name itself when it does not start with '\|' |
| GamePaths.ResourceHandlePathStripsCategory | Penumbra/Interop/ResourceTree/ResolveContext.cs:392-398 | a name `\|category\|path` yields exactly `path` |
| GamePaths.ResourceHandlePathUnclosed | Penumbra/Interop/ResourceTree/ResolveContext.cs:394-396 | an opening '\|' that is never closed yields the empty path |
| TextureNaming.FieldMasks | Penumbra/Interop/ResourceTree/ResolveContext.cs:173-177 | each of the three masks tests the selector field that the shift extracts, and equals its all-ones mask exactly when that field is `0x1F` |
| TextureNaming.GetTextureIndex | Penumbra/Interop/ResourceTree/ResolveContext.cs:171-181 | at most `0x1F`; `0x1F` exactly when no field is usable; otherwise the first usable field in field order |
| TextureNaming.GetTextureSamplerId | Penumbra/Interop/ResourceTree/ResolveContext.cs:183-186 | the id of the first table row holding the texture with an unused id; none exactly when no row qualifies; never an id already used |
| TextureNaming.GetSamplerCrcById | Penumbra/Interop/ResourceTree/ResolveContext.cs:188-191 | the CRC of the first sampler with the id; none exactly when no sampler has it |
| TextureNaming.SamplerIdOf | Penumbra/Interop/ResourceTree/ResolveContext.cs:229-234 | the sampler id a texture binds is an unused id of the texture table |
| TextureNaming.NameTexture | Penumbra/Interop/ResourceTree/ResolveContext.cs:224-246 | the id a texture uses up was unused and is in the table; without a shader package no id is used up |
| TextureNaming.TextureNamePrecedence | Penumbra/Interop/ResourceTree/ResolveContext.cs:236-245 | a CRC the shader file knows gets the file's own sampler name; otherwise the hex fallback is "Texture 0x" plus eight digits that read back as the CRC; without a CRC the positional fallback is "Texture #" plus digits that read back as the position |
| PathMatcher.Split | Penumbra/Interop/ResourceTree/ResolveContext.cs:305 | splitting on '/' with empty entries removed yields only non-empty, slash-free segments |
| PathMatcher.SplitDropsEmpty | Penumbra/Interop/ResourceTree/ResolveContext.cs:305 | for any slash-free parts joined by '/', the split is the non-empty parts in order: doubled, leading and trailing slashes are skipped |
| PathMatcher.SplitJoin | Penumbra/Interop/ResourceTree/ResolveContext.cs:305 | splitting segments joined by '/' gives back the segments |
| PathMatcher.SafeGet | Penumbra/Interop/ResourceTree/ResolveContext.cs:377-381 | the element when the index is in range, null (`None`) exactly when it is not |
| PathMatcher.IsMatchEquipmentCases | Penumbra/Interop/ResourceTree/ResolveContext.cs:327-334 | `IsMatchEquipment` is true exactly for the directory followed by `material/v<variant>`, undecided exactly for the directory followed by anything else or nothing, false otherwise |
| PathMatcher.IsMatchOnEquipment | Penumbra/Interop/ResourceTree/ResolveContext.cs:313-325 | under `chara/accessory`, `chara/equipment` or `chara/weapon`, `IsMatch` answers what `IsMatchEquipment` answers for the rest with the own set's directory |
| PathMatcher.IsMatchTrueOnlyForOwn | Penumbra/Interop/ResourceTree/ResolveContext.cs:313-334 | `IsMatch` decides only paths under the four known kinds, and is true only for the own monster skeleton or the own set's directory followed by the own variant's material folder |
| PathMatcher.EquipmentDirInjective | Penumbra/Interop/ResourceTree/ResolveContext.cs:318-322 | different sets of one kind have different directory names |
| PathMatcher.OwnMaterialMatches | Penumbra/Interop/ResourceTree/ResolveContext.cs:327-334 | `chara/<kind>/<own set dir>/material/v<own variant>/...` belongs (true) for accessory, equipment and weapon |
| PathMatcher.OtherSetDoesNotMatch | Penumbra/Interop/ResourceTree/ResolveContext.cs:316-334 | any path under another set's directory is ruled out (false) |
| PathMatcher.OtherVariantDoesNotMatch | Penumbra/Interop/ResourceTree/ResolveContext.cs:331 | the own set's material directory of another variant is ruled out |
| PathMatcher.MonsterMatchesOnlyItsSkeleton | Penumbra/Interop/ResourceTree/ResolveContext.cs:320 | `chara/monster/m<id>/...` is true exactly when `id` is the pass's skeleton id, false otherwise |
| PathMatcher.UndecidedIsNone | Penumbra/Interop/ResourceTree/ResolveContext.cs:313-325 | a path not of the form `chara/{accessory,equipment,monster,weapon}/...` is undecided |
| PathMatcher.UndecidedPathsAreKept | Penumbra/Interop/ResourceTree/ResolveContext.cs:304-325 | such a path, written with slashes, is undecided and so is kept by the filter |
| PathMatcher.TruncatedKnownPathsAreRuledOut | Penumbra/Interop/ResourceTree/ResolveContext.cs:316-334 | `chara/<known kind>` with nothing after it is ruled out, not undecided, and the filter drops it |
| PathMatcher.OwnNonMaterialFilesAreKept | Penumbra/Interop/ResourceTree/ResolveContext.cs:328-333 | the own set's directory followed by anything but `material` is undecided |
| PathMatcher.KeptIndices | Penumbra/Interop/ResourceTree/ResolveContext.cs:299-311 | the positions of the kept paths are increasing and are exactly the positions whose path is kept |
| PathMatcher.FilteredAtKeptIndices | Penumbra/Interop/ResourceTree/ResolveContext.cs:299-311 | the filtered list is the input at the kept positions, in order, hence never longer than the input |
| PathMatcher.FilterGamePaths | Penumbra/Interop/ResourceTree/ResolveContext.cs:299-311 | the loop yields the in-order subsequence of kept paths; no longer than the input; an input path is in it exactly when the matcher does not rule it out |
| PathMatcher.FilteredMembers | Penumbra/Interop/ResourceTree/ResolveContext.cs:302-307 | an input path appears in the output exactly when it is kept (true or undecided) |
| UiData.DisplayNameStripsPadding | Penumbra/Interop/ResourceTree/ResolveContext.cs:367-369 | a "Customization:" key shows the text after the prefix with exactly the white space around it removed |
| UiData.CustomizationUnknownIsUnnamed | Penumbra/Interop/ResourceTree/ResolveContext.cs:367-370 | "Customization: Unknown", with any white space around "Unknown", never names a node |
| UiData.GuessUIDataFromPath | Penumbra/Interop/ResourceTree/ResolveContext.cs:363-375 | the first answer whose display name is not "Unknown", with that answer's icon; no name and the unknown icon exactly when every answer is "Unknown" |
| UiData.SlotPrefix | Penumbra/Interop/ResourceTree/ResolveContext.cs:344-349 | only the two ring slots get a prefix, a letter and ": " |
| UiData.EquipmentPathKinds | Penumbra/Interop/ResourceTree/ResolveContext.cs:338-340 | among well-formed paths under `chara/`, exactly the accessory and equipment directories are equipment paths; weapons are not |
| UiData.GuessModelUIData | Penumbra/Interop/ResourceTree/ResolveContext.cs:336-361 | equipment paths always get a name: the first equipment item, with "R: "/"L: " for rings; else the path-based guess; else the slot's name. Other paths get the path-based guess |
| UiData.WeaponNamesIgnoreEquipmentIdentification | Penumbra/Interop/ResourceTree/ResolveContext.cs:338-342 | weapon paths never use the equipment identification, whatever it answers |
| ResourceTree.NewNodeShape | Penumbra/Interop/ResourceTree/ResolveContext.cs:97-103 | a new node has the handle's address and length, no name, no fallback name and no children, and a full path exactly when the handle's path is a valid game path |
| ResourceTree.FullPathOf | Penumbra/Interop/ResourceTree/ResolveContext.cs:97 | a node's full path, when present, is the handle's path and is a valid game path |
| ResourceTree.ShpkGamePath | Penumbra/Interop/ResourceTree/ResolveContext.cs:29-36 | a shader-package path exists exactly for a non-null handle, a non-empty name and a valid `shader/sm5/shpk/<name>`, and is that path |
| ResourceTree.TexGamePath | Penumbra/Interop/ResourceTree/ResolveContext.cs:41-74 | a texture path needs a non-null handle and is valid; it is the given path, or its DX11 rewrite when flagged |
| ResourceTree.TexGamePathExists | Penumbra/Interop/ResourceTree/ResolveContext.cs:41-74 | a texture yields a game path exactly when its handle is not null and the path (rewritten when flagged DX11) exists and is valid |
| ResourceTree.GotOrCreatedGrows | Penumbra/Interop/ResourceTree/ResolveContext.cs:79-108 | a lookup-or-create only appends to the arena and only adds to the cache |
| ResourceTree.GotOrCreatedTwice | Penumbra/Interop/ResourceTree/ResolveContext.cs:85-88 | two lookups of one key return the same node; the second changes nothing; the key ends up mapped to that node |
| ResourceTree.PresentSlots | Penumbra/Interop/ResourceTree/ResolveContext.cs:217-222 | only slots that yield a node are listed, in increasing order |
| ResourceTree.PresentSlotsComplete | Penumbra/Interop/ResourceTree/ResolveContext.cs:217-222 | no slot that yields a node is skipped |
| ResourceTree.NamesIn | Penumbra/Interop/ResourceTree/ResolveContext.cs:216-249 | the naming pass gives exactly one name per slot that yields a node |
| ResourceTree.NoSamplerIdUsedTwice | Penumbra/Interop/ResourceTree/ResolveContext.cs:216-237 | no two textures of a material use the same sampler id, and the set of used ids is exactly the ids used |
| ResourceTree.NoSamplersNoneUsed | Penumbra/Interop/ResourceTree/ResolveContext.cs:227-242 | without a shader package's sampler table no sampler id is used |
| ResourceTree.TextureSlotAttached | Penumbra/Interop/ResourceTree/ResolveContext.cs:219-248 | a slot that yields a node appends to the material the cached node, or with UI data a fresh named copy of it; no other node changes |
| ResourceTree.NoTextureSlot | Penumbra/Interop/ResourceTree/ResolveContext.cs:221-222 | a slot that yields no node changes nothing |
| ResourceTree.TexturesAttachedStep | Penumbra/Interop/ResourceTree/ResolveContext.cs:217-249 | one turn of the texture loop keeps the loop's state description and the used-id set equal to the naming pass's |
| ResourceTree.ShpkStep | Penumbra/Interop/ResourceTree/ResolveContext.cs:206-214 | the shader package's node (named "Shader Package" with UI data) becomes the material's first child; only names of cached nodes change; sampler table and shader file are read through it |
| ResourceTree.NoShpk | Penumbra/Interop/ResourceTree/ResolveContext.cs:206-214 | no shader-package node: nothing changes, and textures are named without sampler table or file |
| ResourceTree.MaterialFrame | Penumbra/Interop/ResourceTree/ResolveContext.cs:202-249 | building a material keeps every earlier node's resource and fallback name; uncached nodes stay unchanged; the cache only grows |
| ResourceTree.MaterialShape | Penumbra/Interop/ResourceTree/ResolveContext.cs:202-249 | after the texture loop the material node is its fresh node with the shader package's node, then the texture children as children |
| ResourceTree.MaterialNodeBuilt | Penumbra/Interop/ResourceTree/ResolveContext.cs:251-253 | once cached under its key, the material node has the full shape: shader package, then named texture children in slot order |
| ResourceTree.MaterialAttachedFrom | Penumbra/Interop/ResourceTree/ResolveContext.cs:154-161 | a material that yields a node is appended to the model's children, with "Material #i" as fallback name under UI data; other fallback names are kept |
| ResourceTree.PresentMaterials | Penumbra/Interop/ResourceTree/ResolveContext.cs:152-156 | only materials that yield a node are listed, in increasing order |
| ResourceTree.PresentMaterialsComplete | Penumbra/Interop/ResourceTree/ResolveContext.cs:152-156 | no material that yields a node is skipped |
| ResourceTree.ModelChildrenStep | Penumbra/Interop/ResourceTree/ResolveContext.cs:152-162 | one material turn keeps the model's children equal to the cached nodes of its present materials, in order |
| ResourceTree.ModelFallbacksStep | Penumbra/Interop/ResourceTree/ResolveContext.cs:158-159 | one material turn keeps every child's fallback name at "Material #i" for the last position i it was listed at |
| ResourceTree.ModelAttachedStep | Penumbra/Interop/ResourceTree/ResolveContext.cs:152-162 | one turn of the material loop keeps the loop's state description |
| ResourceTree.ModelStarted | Penumbra/Interop/ResourceTree/ResolveContext.cs:150 | a model's fresh node satisfies the loop's state description before any material |
| ResourceTree.ModelDuplicate | Penumbra/Interop/ResourceTree/ResolveContext.cs:164 | a model whose key got cached while its materials were built yields the `Add` failure |
| ResourceTree.ModelFinished | Penumbra/Interop/ResourceTree/ResolveContext.cs:164-166 | a model whose materials were all attached is built once added: its node is cached, its children are its materials' nodes in order |
| ResourceTree.ModelAborted | Penumbra/Interop/ResourceTree/ResolveContext.cs:155 | a material's `Add` failure ends the model's build with that failure |
| ResourceTree.SkeletonWithParameterFramed | Penumbra/Interop/ResourceTree/ResolveContext.cs:266-271 | creating the skeleton node and fetching its parameter node keep earlier nodes' resources; the cache only grows |
| ResourceTree.SkeletonWithParameter | Penumbra/Interop/ResourceTree/ResolveContext.cs:266-271 | the skeleton node carries the parameter node as only child; the skeleton's key is already cached exactly when the two handles are one |
| ResourceTree.SkeletonAdded | Penumbra/Interop/ResourceTree/ResolveContext.cs:272 | a skeleton node added to the cache is built under its key |
| ResourceTree.SkeletonDuplicate | Penumbra/Interop/ResourceTree/ResolveContext.cs:272 | a skeleton whose parameter handle is its own handle yields the `Add` failure |
| ResourceTree.SkeletonWithoutParameter | Penumbra/Interop/ResourceTree/ResolveContext.cs:266-273 | a skeleton without parameter node is built childless under its key |
| ResourceTree.LinkedAppend | Penumbra/Interop/ResourceTree/ResolveContext.cs:99-103 | appending a fresh childless node keeps every cached node and every child inside the arena |
| ResourceTree.GlobalResolveContext.constructor | Penumbra/Interop/ResourceTree/ResolveContext.cs:16-19 | a pass starts with an empty cache and the given flags and collaborators |
| ResourceTree.GlobalResolveContext.Add | Penumbra/Interop/ResourceTree/ResolveContext.cs:105 | `Nodes.Add` adds the key when it is absent and fails, changing nothing, when it is present |
| ResourceTree.GlobalResolveContext.AddChild | Penumbra/Interop/ResourceTree/ResolveContext.cs:160 | `Children.Add` appends one child to one node and changes nothing else |
| ResourceTree.GlobalResolveContext.SetName | Penumbra/Interop/ResourceTree/ResolveContext.cs:210 | setting `Name` changes only that node's name |
| ResourceTree.GlobalResolveContext.SetFallbackName | Penumbra/Interop/ResourceTree/ResolveContext.cs:292 | setting `FallbackName` changes only that node's fallback name |
| ResourceTree.GlobalResolveContext.Clone | Penumbra/Interop/ResourceTree/ResolveContext.cs:244 | `Clone` appends a node equal to the original; the cache is unchanged |
| Resolver.ResolveContext.constructor | Penumbra/Interop/ResourceTree/ResolveContext.cs:21-22 | `CreateContext` binds the pass, the slot and the equipment |
| Resolver.ResolveContext.CreateNode | Penumbra/Interop/ResourceTree/ResolveContext.cs:91-108 | `CreateNode(..., autoAdd: false)`: a fresh childless, unnamed node with the given type, addresses, game path and the handle's full path is appended; the cache is unchanged |
| Resolver.ResolveContext.GetOrCreateNode | Penumbra/Interop/ResourceTree/ResolveContext.cs:79-89 | a cached key returns its node and changes nothing; otherwise `CreateNode` with `autoAdd` appends a fresh node with that game path and handle and adds exactly its key |
| Resolver.ResolveContext.GetOrCreateNodeTwice | Penumbra/Interop/ResourceTree/ResolveContext.cs:85-88 | asking twice for one key yields the identical node, and the arena grows by at most one |
| Resolver.ResolveContext.CreateNodeFromShpk | Penumbra/Interop/ResourceTree/ResolveContext.cs:29-39 | no node and no change when there is no shader-package path; else the cached or new node under `shader/sm5/shpk/<name>` |
| Resolver.ResolveContext.CreateNodeFromTex | Penumbra/Interop/ResourceTree/ResolveContext.cs:41-77 | no node and no change when the texture has no path; else the cached or new node under the (DX11-rewritten) path |
| Resolver.ResolveContext.CreateNodeFromTexHandle | Penumbra/Interop/ResourceTree/ResolveContext.cs:130-138 | null gives no node and no change; else the cached or new texture node with the empty game path |
| Resolver.ResolveContext.CreateNodeFromEid | Penumbra/Interop/ResourceTree/ResolveContext.cs:110-118 | null gives no node and no change; else the cached or new node with the empty game path and no object address |
| Resolver.ResolveContext.CreateNodeFromImc | Penumbra/Interop/ResourceTree/ResolveContext.cs:120-128 | as for the EID handle, with the IMC type |
| Resolver.ResolveContext.CreateNodeFromMaterial | Penumbra/Interop/ResourceTree/ResolveContext.cs:193-200 | a null material or handle gives no node and no change; a cached key gives its node and no change; else the material is built (or the `Add` failure); earlier nodes keep their resources |
| Resolver.ResolveContext.BuildMaterialNode | Penumbra/Interop/ResourceTree/ResolveContext.cs:202-253 | the material's node, cached under its key, with shader package then named texture children; or the `Add` failure |
| Resolver.ResolveContext.AttachShaderPackage | Penumbra/Interop/ResourceTree/ResolveContext.cs:206-214 | the shader-package step as `ShpkStep`/`NoShpk` state it |
| Resolver.ResolveContext.AttachTextures | Penumbra/Interop/ResourceTree/ResolveContext.cs:216-249 | after the loop the material's new children are the texture children of every node-yielding slot, in order, named by the naming pass |
| Resolver.ResolveContext.AttachTexture | Penumbra/Interop/ResourceTree/ResolveContext.cs:219-248 | one slot: its child (if any) is appended, and the used-id set grows by the id its naming used |
| Resolver.ResolveContext.AttachFetchedTexture | Penumbra/Interop/ResourceTree/ResolveContext.cs:224-248 | a fetched texture node, or with UI data its named copy, becomes the material's next child |
| Resolver.ResolveContext.NamedTextureCopy | Penumbra/Interop/ResourceTree/ResolveContext.cs:224-245 | the copy appended is the texture node renamed with the naming pass's name; the used id joins the set |
| Resolver.ResolveContext.CreateNodeFromRenderModel | Penumbra/Interop/ResourceTree/ResolveContext.cs:140-148 | a null model or handle gives no node and no change; a cached key gives its node; else the model is built (or an `Add` failure) |
| Resolver.ResolveContext.BuildModelNode | Penumbra/Interop/ResourceTree/ResolveContext.cs:150-166 | the model's node, cached under its key after its material loop, with its materials' nodes as children in order; or the `Add` failure |
| Resolver.ResolveContext.AttachMaterials | Penumbra/Interop/ResourceTree/ResolveContext.cs:152-162 | the loop attaches every present material in order, or stops with the first `Add` failure |
| Resolver.ResolveContext.AttachMaterial | Penumbra/Interop/ResourceTree/ResolveContext.cs:154-161 | one material: its node, with its fallback name under UI data, is appended to the model's children |
| Resolver.ResolveContext.CreateParameterNodeFromPartialSkeleton | Penumbra/Interop/ResourceTree/ResolveContext.cs:278-297 | a null skeleton or parameter handle gives no node; else the cached node, or a new one with "Skeleton Parameters" as fallback name under UI data, added under its key |
| Resolver.ResolveContext.CreateNodeFromPartialSkeleton | Penumbra/Interop/ResourceTree/ResolveContext.cs:256-264 | a null skeleton or handle gives no node and no change; a cached key gives its node; else the skeleton is built |
| Resolver.ResolveContext.BuildSkeletonNode | Penumbra/Interop/ResourceTree/ResolveContext.cs:266-275 | the skeleton node with its parameter node as only child, cached under its key; the `Add` failure exactly when both handles are one |

## Left out

- Icons: `ChangedItemDrawer` category icons are not modelled. An icon is recorded by the key and
  item id it is computed from (`ItemIcon`) or by the slot (`SlotIcon`).
- `Utf8GamePath` validity, `TreeBuildCache.ReadShaderPackage`, the sampler table behind a
  `ShaderPackage*`, `IObjectIdentifier.Identify` and `Slot.ToName()` are parameters; their
  behaviour is not modelled.
- `GetResourceHandleLength` and the native handle read are taken as fields of the handle value.
- `ByteString` ownership and the game-path `Clone` calls at lines 63 and 70 have no meaning for values. The UTF-8 decoding of
  `Utf8GamePath.ToString` is left out: the matcher and the UI guesses work on decoded strings.
- `String.StartsWith("Customization:")` is culture-sensitive in .NET; it is modelled as an ordinal
  prefix test.
- PathMatcher.SafeGet: takes a non-negative position only. The source accepts an `Index`, but
  every call uses a position from the start.
- TextureNaming.GetTextureIndex: a selector field that points past the end of the material's
  texture table is treated as not usable. The source reads that row natively, with no bounds
  check, and the outcome of that read is not modelled.
- The node's back reference to its resolve context, and the node fields the resolver does not
  read, are left out.
- Logging, concurrency, and host memory freed during a pass are left out. Every host object is a
  value, read once.
- The exception from `Dictionary.Add` is modelled as the `DuplicateKey` outcome. The model says
  what the cache then holds; the partially built nodes left in the arena are not described
  further.
- The `ArgumentNullException` of `GetOrCreateNode` and `CreateNode` for a null handle cannot
  arise: every caller checks the handle first, and the model's handles are values.
