/** Resource nodes, the pass-wide node cache, and what the builders promise about them.
    Nodes live in an arena and are referred to by their position in it; a child list holds
    positions, so two parents that hold the same position share one node, as two references
    to one `ResourceNode` object do. */
module ResourceTree {
  import opened Wrappers
  import opened ByteStrings
  import opened Formatting
  import opened Host
  import opened GamePaths
  import opened TextureNaming

  datatype ResourceType = Shpk | Tex | Mdl | Mtrl | Sklb | Skp | Eid | Imc

  type NodeId = nat

  /** A cache key: the node's game path and the address of its resource handle. */
  datatype Key = Key(gamePath: seq<byte>, handle: Ptr)

  /** `ResourceNode`, without its icon and its back reference to the resolve context. */
  datatype ResourceNode = ResourceNode(
    kind: ResourceType,
    objectAddress: Ptr,
    resourceHandle: Ptr,
    length: nat,
    gamePath: seq<byte>,
    fullPath: Option<seq<byte>>,
    name: Option<string>,
    fallbackName: Option<string>,
    children: seq<NodeId>)

  /** What a builder yields: no node, a node, or the `ArgumentException` that
      `Dictionary.Add` throws for a key that is already present. */
  datatype Outcome = NoNode | Built(id: NodeId) | DuplicateKey(key: Key)

  const ShpkPrefix: seq<byte> := Ascii("shader/sm5/shpk")

  /** A node's full path: the handle's own path when it is a valid game path, else `FullPath.Empty`. */
  function FullPathOf(handle: ResourceHandle, isGamePath: seq<byte> -> bool): (r: Option<seq<byte>>)
    ensures r.Some? ==> isGamePath(r.value) && r.value == ResourceHandlePath(Some(handle.fileName))
    ensures r.None? ==> !isGamePath(ResourceHandlePath(Some(handle.fileName)))
  {
    var p := ResourceHandlePath(Some(handle.fileName));
    if isGamePath(p) then Some(p) else None
  }

  /** The node `CreateNode` makes: no name, no children. */
  function NewNode(kind: ResourceType, objectAddress: Ptr, handle: ResourceHandle, gamePath: seq<byte>,
                   isGamePath: seq<byte> -> bool): ResourceNode
  {
    ResourceNode(kind, objectAddress, handle.address, handle.length, gamePath, FullPathOf(handle, isGamePath), None, None, [])
  }

  /** A new node copies the handle's address and length, has no name and no children, and has a
      full path exactly when the handle's path is a valid game path. */
  lemma NewNodeShape(kind: ResourceType, objectAddress: Ptr, handle: ResourceHandle, gamePath: seq<byte>,
                     isGamePath: seq<byte> -> bool)
    ensures var node := NewNode(kind, objectAddress, handle, gamePath, isGamePath);
      node.resourceHandle == handle.address && node.length == handle.length
      && node.name.None? && node.fallbackName.None? && node.children == []
      && (node.fullPath.Some? <==> isGamePath(ResourceHandlePath(Some(handle.fileName))))
      && (node.fullPath.Some? ==> node.fullPath.value == ResourceHandlePath(Some(handle.fileName)))
  {
  }

  /** The game path of a material's shader package: none for a null handle or an empty
      name, else `shader/sm5/shpk/<name>` when that is a valid game path. */
  function ShpkGamePath(handle: Option<ShaderPackageHandle>, name: seq<byte>, isGamePath: seq<byte> -> bool): (r: Option<seq<byte>>)
    ensures r.Some? <==> handle.Some? && name != [] && isGamePath(ShpkPrefix + [Slash] + name)
    ensures r.Some? ==> r.value == ShpkPrefix + [Slash] + name
  {
    if handle.None? || name == [] then None
    else
      var p := ShpkPrefix + [Slash] + name;
      if isGamePath(p) then Some(p) else None
  }

  /** The game path of a texture: none for a null handle; the DX11 rewrite when flagged;
      and only when the outcome is a valid game path. */
  function TexGamePath(handle: Option<TextureHandle>, path: seq<byte>, dx11: bool, isGamePath: seq<byte> -> bool): (r: Option<seq<byte>>)
    ensures r.Some? ==> handle.Some? && isGamePath(r.value)
    ensures r.Some? && !dx11 ==> r.value == path
    ensures r.Some? && dx11 ==> Dx11TexturePath(path) == r
  {
    if handle.None? then None
    else
      var p := if dx11 then Dx11TexturePath(path) else Some(path);
      if p.Some? && isGamePath(p.value) then p else None
  }

  /** A texture yields a game path exactly when its handle is not null and the path (after the
      DX11 rewrite, when flagged) exists and is valid. */
  lemma TexGamePathExists(handle: Option<TextureHandle>, path: seq<byte>, dx11: bool, isGamePath: seq<byte> -> bool)
    ensures TexGamePath(handle, path, dx11, isGamePath).Some? <==>
      handle.Some? && if dx11 then Dx11TexturePath(path).Some? && isGamePath(Dx11TexturePath(path).value) else isGamePath(path)
  {
  }

  /** Two nodes stand for the same resource: they differ at most in their names. */
  predicate SameResource(a: ResourceNode, b: ResourceNode) {
    a.(name := None, fallbackName := None) == b.(name := None, fallbackName := None)
  }

  /** Nodes already built keep what they stand for and their children; only names change. */
  ghost predicate Preserves(before: seq<ResourceNode>, after: seq<ResourceNode>) {
    |before| <= |after| && forall i | 0 <= i < |before| :: SameResource(before[i], after[i])
  }

  /** Nodes already built keep their fallback names. */
  ghost predicate FallbacksKept(before: seq<ResourceNode>, after: seq<ResourceNode>) {
    |before| <= |after| && forall i | 0 <= i < |before| :: after[i].fallbackName == before[i].fallbackName
  }

  /** The cache only grows, and what it gains are nodes built after `size`. */
  ghost predicate CacheGrows(before: map<Key, NodeId>, after: map<Key, NodeId>, size: nat) {
    (forall k | k in before :: k in after && after[k] == before[k])
    && (forall k | k in after && k !in before :: after[k] >= size)
  }

  /** `GetOrCreateNode`'s effect: a hit returns the cached node and changes nothing; a miss
      appends `created` and adds exactly its key. */
  ghost predicate GotOrCreated(arena0: seq<ResourceNode>, nodes0: map<Key, NodeId>,
                               arena1: seq<ResourceNode>, nodes1: map<Key, NodeId>,
                               key: Key, created: ResourceNode, id: NodeId)
  {
    if key in nodes0 then id == nodes0[key] && arena1 == arena0 && nodes1 == nodes0
    else id == |arena0| && arena1 == arena0 + [created] && nodes1 == nodes0[key := id]
  }

  lemma CacheGrowsTrans(a: map<Key, NodeId>, b: map<Key, NodeId>, c: map<Key, NodeId>, s1: nat, s2: nat)
    requires CacheGrows(a, b, s1) && CacheGrows(b, c, s2) && s1 <= s2
    ensures CacheGrows(a, c, s1)
  {
  }

  lemma PreservesTrans(a: seq<ResourceNode>, b: seq<ResourceNode>, c: seq<ResourceNode>)
    requires Preserves(a, b) && Preserves(b, c)
    ensures Preserves(a, c)
  {
  }

  /** A get-or-create step only appends to the arena and only adds to the cache. */
  lemma GotOrCreatedGrows(arena0: seq<ResourceNode>, nodes0: map<Key, NodeId>, arena1: seq<ResourceNode>, nodes1: map<Key, NodeId>,
                          key: Key, created: ResourceNode, id: NodeId)
    requires GotOrCreated(arena0, nodes0, arena1, nodes1, key, created, id)
    ensures CacheGrows(nodes0, nodes1, |arena0|) && Preserves(arena0, arena1) && FallbacksKept(arena0, arena1)
    ensures |arena0| <= |arena1| && forall i | 0 <= i < |arena0| :: arena1[i] == arena0[i]
  {
  }

  /** A node that is not in the cache stays out of it while the cache grows. */
  lemma NotCachedStays(before: map<Key, NodeId>, after: map<Key, NodeId>, size: nat, x: NodeId)
    requires CacheGrows(before, after, size) && x < size && x !in before.Values
    ensures x !in after.Values
  {
    forall k | k in after
      ensures after[k] != x
    {
      if k in before {
        assert before[k] in before.Values;
      }
    }
  }

  // ---------------------------------------------------------------------------------------
  // Materials: the naming pass over the texture slots

  /** What the naming pass of one material reads: its texture table, and the shader package's
      sampler table and file when those are known. */
  datatype NamingInput = NamingInput(table: seq<MaterialTexture>, samplers: Option<seq<Sampler>>, file: Option<ShaderFile>)

  /** The game path a texture slot's node is filed under, if the slot yields a node. */
  function SlotPath(slot: TextureSlot, isGamePath: seq<byte> -> bool): Option<seq<byte>> {
    TexGamePath(slot.handle, slot.path, slot.isDx11, isGamePath)
  }

  /** The naming of texture slot `i` given the sampler ids already used (a slot without a
      handle yields no node and is never named). */
  function SlotNaming(input: NamingInput, slot: TextureSlot, i: nat, visited: set<uint32>): Naming
  {
    var texture := if slot.handle.Some? then slot.handle.value.resource.address else Null;
    NameTexture(input.table, input.samplers, input.file, slot.flags, texture, i, visited)
  }

  /** The sampler ids used once a texture has been named. */
  function Consume(visited: set<uint32>, naming: Naming): set<uint32> {
    if naming.consumed.Some? then visited + {naming.consumed.value} else visited
  }

  /** The positions below `n` of the texture slots that yield a node, in increasing order. */
  function PresentSlots(slots: seq<TextureSlot>, n: nat, isGamePath: seq<byte> -> bool): (r: seq<nat>)
    requires n <= |slots|
    ensures forall j | 0 <= j < |r| :: r[j] < n && SlotPath(slots[r[j]], isGamePath).Some?
    ensures forall j, k | 0 <= j < k < |r| :: r[j] < r[k]
  {
    if n == 0 then []
    else PresentSlots(slots, n - 1, isGamePath) + (if SlotPath(slots[n - 1], isGamePath).Some? then [n - 1] else [])
  }

  /** Every slot below `n` that yields a node is listed. */
  lemma {:induction false} PresentSlotsComplete(slots: seq<TextureSlot>, n: nat, isGamePath: seq<byte> -> bool)
    requires n <= |slots|
    ensures forall i | 0 <= i < n && SlotPath(slots[i], isGamePath).Some? :: i in PresentSlots(slots, n, isGamePath)
  {
    if n > 0 {
      PresentSlotsComplete(slots, n - 1, isGamePath);
    }
  }

  /** Names given and sampler ids used by the first `n` texture slots of a material. */
  datatype NamingState = NamingState(names: seq<string>, visited: set<uint32>, consumed: seq<uint32>)

  /** The naming pass over the first `n` texture slots: every slot that yields a node is named
      in turn, and the sampler id it uses joins the set of ids already used. */
  function NamesIn(input: NamingInput, slots: seq<TextureSlot>, isGamePath: seq<byte> -> bool, n: nat): (r: NamingState)
    requires n <= |slots|
    ensures |r.names| == |PresentSlots(slots, n, isGamePath)|
  {
    if n == 0 then NamingState([], {}, [])
    else
      var s := NamesIn(input, slots, isGamePath, n - 1);
      if SlotPath(slots[n - 1], isGamePath).None? then s
      else
        var naming := SlotNaming(input, slots[n - 1], n - 1, s.visited);
        NamingState(s.names + [naming.name], Consume(s.visited, naming),
                    s.consumed + (if naming.consumed.Some? then [naming.consumed.value] else []))
  }

  /** No sampler id is used twice, and the set of used ids is exactly the ids used. */
  ghost predicate UsedOnce(st: NamingState) {
    && (forall j, k | 0 <= j < k < |st.consumed| :: st.consumed[j] != st.consumed[k])
    && (forall id: uint32 :: id in st.visited <==> id in st.consumed)
  }

  /** Naming one more texture keeps `UsedOnce` as long as the id it uses was still unused. */
  lemma UsedOnceStep(st: NamingState, naming: Naming)
    requires UsedOnce(st) && (naming.consumed.Some? ==> naming.consumed.value !in st.visited)
    ensures UsedOnce(NamingState(st.names + [naming.name], Consume(st.visited, naming),
                                 st.consumed + (if naming.consumed.Some? then [naming.consumed.value] else [])))
  {
    if naming.consumed.Some? {
      assert naming.consumed.value !in st.consumed;
    } else {
      assert st.consumed + [] == st.consumed;
    }
  }

  /** No two textures of one material use the same sampler id, and the set of used ids is
      exactly the ids the textures used. */
  lemma {:induction false} NoSamplerIdUsedTwice(input: NamingInput, slots: seq<TextureSlot>, isGamePath: seq<byte> -> bool, n: nat)
    requires n <= |slots|
    ensures UsedOnce(NamesIn(input, slots, isGamePath, n))
  {
    if n > 0 {
      NoSamplerIdUsedTwice(input, slots, isGamePath, n - 1);
      var s := NamesIn(input, slots, isGamePath, n - 1);
      if SlotPath(slots[n - 1], isGamePath).Some? {
        UsedOnceStep(s, SlotNaming(input, slots[n - 1], n - 1, s.visited));
      }
    }
  }

  /** Without a sampler table no texture uses a sampler id. */
  lemma {:induction false} NoSamplersNoneUsed(input: NamingInput, slots: seq<TextureSlot>, isGamePath: seq<byte> -> bool, n: nat)
    requires n <= |slots| && input.samplers.None?
    ensures NamesIn(input, slots, isGamePath, n).visited == {}
    ensures NamesIn(input, slots, isGamePath, n).consumed == []
  {
    if n > 0 {
      NoSamplersNoneUsed(input, slots, isGamePath, n - 1);
    }
  }

  // ---------------------------------------------------------------------------------------
  // Materials: the shape of a material node

  /** A texture child of the material node `parent`: the slot yields a node whose key is cached;
      with UI data the child is a copy, made after the material node and after the cached node,
      that carries the slot's name; otherwise it is the cached node itself. */
  ghost predicate TextureChildOk(arena: seq<ResourceNode>, nodes: map<Key, NodeId>, kid: NodeId, slot: TextureSlot,
                                 name: string, withUiData: bool, isGamePath: seq<byte> -> bool, parent: NodeId)
  {
    var p := SlotPath(slot, isGamePath);
    && p.Some?
    && var key := Key(p.value, slot.handle.value.resource.address);
    && key in nodes && nodes[key] < |arena| && kid < |arena|
    && if withUiData then
         parent < kid && nodes[key] < kid && SameResource(arena[kid], arena[nodes[key]]) && arena[kid].name == Some(name)
       else kid == nodes[key]
  }

  /** The texture children of the first `n` slots, in slot order, named by the naming pass. */
  ghost predicate TexturesOk(arena: seq<ResourceNode>, nodes: map<Key, NodeId>, kids: seq<NodeId>, input: NamingInput,
                             slots: seq<TextureSlot>, withUiData: bool, isGamePath: seq<byte> -> bool, parent: NodeId, n: nat)
    requires n <= |slots|
  {
    var present := PresentSlots(slots, n, isGamePath);
    && |kids| == |present|
    && forall j | 0 <= j < |kids| ::
         TextureChildOk(arena, nodes, kids[j], slots[present[j]], NamesIn(input, slots, isGamePath, n).names[j],
                        withUiData, isGamePath, parent)
  }

  lemma TexturesOkStable(arena: seq<ResourceNode>, nodes: map<Key, NodeId>, arena2: seq<ResourceNode>, nodes2: map<Key, NodeId>,
                         kids: seq<NodeId>, input: NamingInput, slots: seq<TextureSlot>, withUiData: bool,
                         isGamePath: seq<byte> -> bool, parent: NodeId, n: nat)
    requires n <= |slots|
    requires TexturesOk(arena, nodes, kids, input, slots, withUiData, isGamePath, parent, n)
    requires |arena| <= |arena2| && forall x | 0 <= x < |arena| && x != parent :: arena2[x] == arena[x]
    requires parent !in nodes.Values
    requires forall k | k in nodes :: k in nodes2 && nodes2[k] == nodes[k]
    ensures TexturesOk(arena2, nodes2, kids, input, slots, withUiData, isGamePath, parent, n)
  {
    var present := PresentSlots(slots, n, isGamePath);
    var names := NamesIn(input, slots, isGamePath, n).names;
    forall j | 0 <= j < |kids|
      ensures TextureChildOk(arena2, nodes2, kids[j], slots[present[j]], names[j], withUiData, isGamePath, parent)
    {
      var slot := slots[present[j]];
      var key := Key(SlotPath(slot, isGamePath).value, slot.handle.value.resource.address);
      assert nodes[key] in nodes.Values;
    }
  }

  /** The shader-package child of a material: the cached node for its key, named
      "Shader Package" when UI data is on. */
  ghost predicate ShpkChildOk(arena: seq<ResourceNode>, nodes: map<Key, NodeId>, kid: NodeId, handle: ShaderPackageHandle,
                              path: seq<byte>, withUiData: bool)
  {
    var key := Key(path, handle.resource.address);
    key in nodes && nodes[key] == kid && kid < |arena| && (withUiData ==> arena[kid].name == Some("Shader Package"))
  }

  /** The sampler table the naming pass reads through the shader-package node's object address. */
  function ShpkSamplers(node: ResourceNode, withUiData: bool, samplersAt: Ptr -> seq<Sampler>): Option<seq<Sampler>>
  {
    if withUiData && node.objectAddress != Null then Some(samplersAt(node.objectAddress)) else None
  }

  /** The shader file the naming pass reads from the shader-package node's full path. */
  function ShpkFile(node: ResourceNode, withUiData: bool, read: Option<seq<byte>> -> Option<ShaderFile>): Option<ShaderFile>
  {
    if withUiData then read(node.fullPath) else None
  }

  function MaterialKey(res: MaterialResourceHandle): Key {
    Key([], res.resource.address)
  }

  /** A freshly built material node: the material's own node, whose children are the shader
      package first when it yields a node, then one child per texture slot that yields a node,
      in slot order, named by the naming pass over what the shader-package node points at. */
  ghost predicate MaterialNodeOk(arena: seq<ResourceNode>, nodes: map<Key, NodeId>, id: NodeId, m: Material,
                                 withUiData: bool, isGamePath: seq<byte> -> bool,
                                 read: Option<seq<byte>> -> Option<ShaderFile>, samplersAt: Ptr -> seq<Sampler>)
    requires m.resourceHandle.Some?
  {
    var res := m.resourceHandle.value;
    var shpkPath := ShpkGamePath(res.shaderPackage, res.shpkName, isGamePath);
    var k := if shpkPath.Some? then 1 else 0;
    && id < |arena|
    && arena[id].(children := []) == NewNode(Mtrl, m.address, res.resource, [], isGamePath)
    && k <= |arena[id].children|
    && (shpkPath.Some? ==> ShpkChildOk(arena, nodes, arena[id].children[0], res.shaderPackage.value, shpkPath.value, withUiData))
    && var input := if shpkPath.Some?
         then NamingInput(m.textures, ShpkSamplers(arena[arena[id].children[0]], withUiData, samplersAt),
                          ShpkFile(arena[arena[id].children[0]], withUiData, read))
         else NamingInput(m.textures, None, None);
    && TexturesOk(arena, nodes, arena[id].children[k..], input, res.textures, withUiData, isGamePath, id, |res.textures|)
  }

  /** What building a material's node on a cache miss yields: the new node, cached under the
      material's key, or the `Add` failure when a node of the material built that key first. */
  ghost predicate MaterialBuilt(arena: seq<ResourceNode>, nodes: map<Key, NodeId>, r: Outcome, m: Material, withUiData: bool,
                                isGamePath: seq<byte> -> bool, read: Option<seq<byte>> -> Option<ShaderFile>,
                                samplersAt: Ptr -> seq<Sampler>, size: nat)
    requires m.resourceHandle.Some?
  {
    var key := MaterialKey(m.resourceHandle.value);
    && (r == Built(size) || r == DuplicateKey(key))
    && key in nodes
    && (r.Built? ==> nodes[key] == r.id && MaterialNodeOk(arena, nodes, r.id, m, withUiData, isGamePath, read, samplersAt))
  }

  /** The effect of one texture slot on the material node `node`: nothing else is touched, the
      cache only grows, and the slot's child, if any, is appended to the node's children. */
  ghost predicate SlotAttached(arena0: seq<ResourceNode>, nodes0: map<Key, NodeId>, arena: seq<ResourceNode>, nodes: map<Key, NodeId>,
                               node: NodeId, kid: Option<NodeId>, slot: TextureSlot, name: string,
                               withUiData: bool, isGamePath: seq<byte> -> bool)
  {
    && node < |arena0| <= |arena|
    && (forall x | 0 <= x < |arena0| && x != node :: arena[x] == arena0[x])
    && CacheGrows(nodes0, nodes, |arena0|)
    && node !in nodes.Values
    && (kid.Some? <==> SlotPath(slot, isGamePath).Some?)
    && arena[node] == arena0[node].(children := arena0[node].children + (if kid.Some? then [kid.value] else []))
    && (kid.Some? ==> TextureChildOk(arena, nodes, kid.value, slot, name, withUiData, isGamePath, node))
  }

  /** Looking a key up twice: the second lookup hits, returns the first one's node and changes
      nothing, and the key ends up mapped to that node. */
  lemma {:induction false} GotOrCreatedTwice(arena0: seq<ResourceNode>, nodes0: map<Key, NodeId>,
                                             arena1: seq<ResourceNode>, nodes1: map<Key, NodeId>,
                                             arena2: seq<ResourceNode>, nodes2: map<Key, NodeId>,
                                             key: Key, created: ResourceNode, first: NodeId, second: NodeId)
    requires GotOrCreated(arena0, nodes0, arena1, nodes1, key, created, first)
    requires GotOrCreated(arena1, nodes1, arena2, nodes2, key, created, second)
    ensures first == second && arena2 == arena1 && nodes2 == nodes1
    ensures nodes1 == nodes0[key := first] && |arena1| <= |arena0| + 1
  {
    if key in nodes0 {
      assert nodes0[key := first] == nodes0;
    } else {
      assert key in nodes1 && nodes1[key] == first;
    }
  }

  /** What a lookup-or-create leaves behind: the cache only grew, the old nodes are untouched,
      and `key` maps to the node `id`. */
  ghost predicate Fetched(arena0: seq<ResourceNode>, nodes0: map<Key, NodeId>, arena1: seq<ResourceNode>, nodes1: map<Key, NodeId>,
                          key: Key, id: NodeId)
  {
    && CacheGrows(nodes0, nodes1, |arena0|)
    && |arena0| <= |arena1|
    && (forall i | 0 <= i < |arena0| :: arena1[i] == arena0[i])
    && key in nodes1 && nodes1[key] == id && id < |arena1|
    && (forall k | k in nodes1 && k !in nodes0 :: k == key)
  }

  lemma GotOrCreatedFetched(arena0: seq<ResourceNode>, nodes0: map<Key, NodeId>, arena1: seq<ResourceNode>, nodes1: map<Key, NodeId>,
                            key: Key, created: ResourceNode, id: NodeId)
    requires GotOrCreated(arena0, nodes0, arena1, nodes1, key, created, id)
    requires key in nodes0 ==> nodes0[key] < |arena0|
    ensures Fetched(arena0, nodes0, arena1, nodes1, key, id)
  {
    GotOrCreatedGrows(arena0, nodes0, arena1, nodes1, key, created, id);
  }

  /** Renaming the node just appended is appending the renamed node. */
  lemma AppendThenSet(arena: seq<ResourceNode>, node: ResourceNode, renamed: ResourceNode)
    ensures (arena + [node])[|arena| := renamed] == arena + [renamed]
  {
  }

  /** A slot that yields a node: the cached or new texture node (copied and named with UI data)
      is appended to the material's children. */
  lemma TextureSlotAttached(arena0: seq<ResourceNode>, nodes0: map<Key, NodeId>, arena1: seq<ResourceNode>, nodes1: map<Key, NodeId>,
                            arena2: seq<ResourceNode>, arena3: seq<ResourceNode>, node: NodeId, t: NodeId, child: NodeId,
                            slot: TextureSlot, name: string, withUiData: bool, isGamePath: seq<byte> -> bool)
    requires node < |arena0| && node !in nodes0.Values
    requires SlotPath(slot, isGamePath).Some?
    requires Fetched(arena0, nodes0, arena1, nodes1, Key(SlotPath(slot, isGamePath).value, slot.handle.value.resource.address), t)
    requires withUiData ==> child == |arena1| && arena2 == arena1 + [arena1[t].(name := Some(name))]
    requires !withUiData ==> child == t && arena2 == arena1
    requires node < |arena2| && arena3 == arena2[node := arena2[node].(children := arena2[node].children + [child])]
    ensures SlotAttached(arena0, nodes0, arena3, nodes1, node, Some(child), slot, name, withUiData, isGamePath)
  {
    NotCachedStays(nodes0, nodes1, |arena0|, node);
    assert t in nodes1.Values;
    forall x | 0 <= x < |arena0| && x != node
      ensures arena3[x] == arena0[x]
    {
      assert arena2[x] == arena1[x];
    }
    if withUiData {
      assert arena3[child] == arena2[child] && arena3[t] == arena2[t];
    }
  }

  /** A slot that yields no node changes nothing. */
  lemma NoTextureSlot(arena0: seq<ResourceNode>, nodes0: map<Key, NodeId>, node: NodeId, slot: TextureSlot, name: string,
                      withUiData: bool, isGamePath: seq<byte> -> bool)
    requires node < |arena0| && node !in nodes0.Values && SlotPath(slot, isGamePath).None?
    ensures SlotAttached(arena0, nodes0, arena0, nodes0, node, None, slot, name, withUiData, isGamePath)
  {
    assert arena0[node].children + [] == arena0[node].children;
  }

  /** The naming input a material's textures are named with: the shader package's sampler table
      and file when the package yields a node, nothing otherwise. */
  function MaterialInput(m: Material, arena: seq<ResourceNode>, kids: seq<NodeId>, withShpk: bool, withUiData: bool,
                         read: Option<seq<byte>> -> Option<ShaderFile>, samplersAt: Ptr -> seq<Sampler>): NamingInput
    requires withShpk ==> 0 < |kids| && kids[0] < |arena|
  {
    if withShpk then NamingInput(m.textures, ShpkSamplers(arena[kids[0]], withUiData, samplersAt), ShpkFile(arena[kids[0]], withUiData, read))
    else NamingInput(m.textures, None, None)
  }

  /** The effect of the shader-package step of a material on its node `node`: only cached nodes
      change, and only their names; the package's node, when there is one, becomes the material's
      first child; `input` is what the texture names are then drawn from. */
  ghost predicate ShpkAttached(arena0: seq<ResourceNode>, nodes0: map<Key, NodeId>, arena: seq<ResourceNode>, nodes: map<Key, NodeId>,
                               node: NodeId, m: Material, input: NamingInput, withUiData: bool, isGamePath: seq<byte> -> bool,
                               read: Option<seq<byte>> -> Option<ShaderFile>, samplersAt: Ptr -> seq<Sampler>)
    requires m.resourceHandle.Some?
  {
    var res := m.resourceHandle.value;
    var shpkPath := ShpkGamePath(res.shaderPackage, res.shpkName, isGamePath);
    && node < |arena0| <= |arena|
    && (forall x | 0 <= x < |arena0| && x != node ::
          SameResource(arena0[x], arena[x]) && arena[x].fallbackName == arena0[x].fallbackName
          && (x !in nodes0.Values ==> arena[x] == arena0[x]))
    && CacheGrows(nodes0, nodes, |arena0|)
    && node !in nodes.Values
    && arena[node] == arena0[node].(children := arena[node].children)
    && |arena[node].children| == (if shpkPath.Some? then 1 else 0)
    && (shpkPath.Some? ==> ShpkChildOk(arena, nodes, arena[node].children[0], res.shaderPackage.value, shpkPath.value, withUiData)
                           && arena[node].children[0] != node)
    && input == MaterialInput(m, arena, arena[node].children, shpkPath.Some?, withUiData, read, samplersAt)
    && (!withUiData ==> input.samplers.None?)
  }

  /** A shader package that yields a node: that node, named with UI data, becomes the material's
      only child so far, and the naming input is read through it. */
  lemma ShpkStep(arena0: seq<ResourceNode>, nodes0: map<Key, NodeId>, arena1: seq<ResourceNode>, nodes1: map<Key, NodeId>,
                 arena2: seq<ResourceNode>, arena3: seq<ResourceNode>, node: NodeId, s: NodeId, m: Material, input: NamingInput,
                 withUiData: bool, isGamePath: seq<byte> -> bool,
                 read: Option<seq<byte>> -> Option<ShaderFile>, samplersAt: Ptr -> seq<Sampler>)
    requires m.resourceHandle.Some?
    requires node < |arena0| && node !in nodes0.Values && arena0[node].children == []
    requires ShpkGamePath(m.resourceHandle.value.shaderPackage, m.resourceHandle.value.shpkName, isGamePath).Some?
    requires Fetched(arena0, nodes0, arena1, nodes1,
                     Key(ShpkGamePath(m.resourceHandle.value.shaderPackage, m.resourceHandle.value.shpkName, isGamePath).value,
                         m.resourceHandle.value.shaderPackage.value.resource.address), s)
    requires arena2 == if withUiData then arena1[s := arena1[s].(name := Some("Shader Package"))] else arena1
    requires node < |arena2| && arena3 == arena2[node := arena2[node].(children := arena2[node].children + [s])]
    requires input == NamingInput(m.textures, ShpkSamplers(arena3[s], withUiData, samplersAt), ShpkFile(arena3[s], withUiData, read))
    ensures ShpkAttached(arena0, nodes0, arena3, nodes1, node, m, input, withUiData, isGamePath, read, samplersAt)
  {
    NotCachedStays(nodes0, nodes1, |arena0|, node);
    assert s in nodes1.Values;
    forall x | 0 <= x < |arena0| && x != node
      ensures SameResource(arena0[x], arena3[x]) && arena3[x].fallbackName == arena0[x].fallbackName
      ensures x !in nodes0.Values ==> arena3[x] == arena0[x]
    {
      assert arena3[x] == arena2[x] && arena1[x] == arena0[x];
      var key := Key(ShpkGamePath(m.resourceHandle.value.shaderPackage, m.resourceHandle.value.shpkName, isGamePath).value,
                     m.resourceHandle.value.shaderPackage.value.resource.address);
      if x == s && key in nodes0 {
        assert nodes0[key] in nodes0.Values;
      }
    }
    assert arena2[node] == arena0[node];
    assert arena3[node].children == [s];
    assert arena3[s] == arena2[s];
  }

  /** A shader package that yields no node changes nothing. */
  lemma NoShpk(arena0: seq<ResourceNode>, nodes0: map<Key, NodeId>, node: NodeId, m: Material, withUiData: bool,
               isGamePath: seq<byte> -> bool, read: Option<seq<byte>> -> Option<ShaderFile>, samplersAt: Ptr -> seq<Sampler>)
    requires m.resourceHandle.Some?
    requires node < |arena0| && node !in nodes0.Values && arena0[node].children == []
    requires ShpkGamePath(m.resourceHandle.value.shaderPackage, m.resourceHandle.value.shpkName, isGamePath).None?
    ensures ShpkAttached(arena0, nodes0, arena0, nodes0, node, m, NamingInput(m.textures, None, None), withUiData, isGamePath, read, samplersAt)
  {
  }

  /** Building a material's node (creation, the shader-package step and the texture loop)
      leaves every earlier node's resource and fallback name as it was, and the cache only grows. */
  lemma MaterialFrame(arena0: seq<ResourceNode>, nodes0: map<Key, NodeId>, node: NodeId, m: Material,
                      arena1: seq<ResourceNode>, arena2: seq<ResourceNode>, nodes2: map<Key, NodeId>,
                      arena3: seq<ResourceNode>, nodes3: map<Key, NodeId>,
                      kids: seq<NodeId>, input: NamingInput, withUiData: bool, isGamePath: seq<byte> -> bool,
                      read: Option<seq<byte>> -> Option<ShaderFile>, samplersAt: Ptr -> seq<Sampler>)
    requires m.resourceHandle.Some?
    requires node == |arena0| && arena1 == arena0 + [NewNode(Mtrl, m.address, m.resourceHandle.value.resource, [], isGamePath)]
    requires ShpkAttached(arena1, nodes0, arena2, nodes2, node, m, input, withUiData, isGamePath, read, samplersAt)
    requires TexturesAttached(arena2, nodes2, node, arena2[node].children, arena3, nodes3, kids, input,
                              m.resourceHandle.value.textures, withUiData, isGamePath, |m.resourceHandle.value.textures|)
    ensures Preserves(arena0, arena3) && FallbacksKept(arena0, arena3)
    ensures forall x | 0 <= x < |arena0| && x !in nodes0.Values :: arena3[x] == arena0[x]
    ensures CacheGrows(nodes0, nodes3, |arena0|)
  {
    CacheGrowsTrans(nodes0, nodes2, nodes3, |arena0|, |arena2|);
    forall x | 0 <= x < |arena0|
      ensures SameResource(arena0[x], arena3[x]) && arena3[x].fallbackName == arena0[x].fallbackName
      ensures x !in nodes0.Values ==> arena3[x] == arena0[x]
    {
      assert x != node && arena1[x] == arena0[x] && arena3[x] == arena2[x];
    }
  }

  /** After the texture loop the material's node is its fresh node with the shader package's
      node (if any) followed by the texture nodes as children. */
  lemma MaterialShape(arena0: seq<ResourceNode>, nodes0: map<Key, NodeId>, node: NodeId, m: Material,
                      arena1: seq<ResourceNode>, arena2: seq<ResourceNode>, nodes2: map<Key, NodeId>,
                      arena3: seq<ResourceNode>, nodes3: map<Key, NodeId>,
                      kids: seq<NodeId>, input: NamingInput, withUiData: bool, isGamePath: seq<byte> -> bool,
                      read: Option<seq<byte>> -> Option<ShaderFile>, samplersAt: Ptr -> seq<Sampler>)
    requires m.resourceHandle.Some?
    requires node == |arena0| && arena1 == arena0 + [NewNode(Mtrl, m.address, m.resourceHandle.value.resource, [], isGamePath)]
    requires ShpkAttached(arena1, nodes0, arena2, nodes2, node, m, input, withUiData, isGamePath, read, samplersAt)
    requires TexturesAttached(arena2, nodes2, node, arena2[node].children, arena3, nodes3, kids, input,
                              m.resourceHandle.value.textures, withUiData, isGamePath, |m.resourceHandle.value.textures|)
    ensures node < |arena3| && node !in nodes3.Values
    ensures arena3[node] == NewNode(Mtrl, m.address, m.resourceHandle.value.resource, [], isGamePath)
                              .(children := arena2[node].children + kids)
    ensures MaterialShpkOk(arena3, nodes3, arena2[node].children, m, input, withUiData, isGamePath, read, samplersAt)
    ensures TexturesOk(arena3, nodes3, kids, input, m.resourceHandle.value.textures, withUiData, isGamePath, node,
                       |m.resourceHandle.value.textures|)
  {
    var res := m.resourceHandle.value;
    var head := arena2[node].children;
    if ShpkGamePath(res.shaderPackage, res.shpkName, isGamePath).Some? {
      assert arena3[head[0]] == arena2[head[0]];
      CacheGrowsKeeps(nodes2, nodes3, |arena2|, Key(ShpkGamePath(res.shaderPackage, res.shpkName, isGamePath).value,
                                                    res.shaderPackage.value.resource.address));
    }
  }

  lemma CacheGrowsKeeps(before: map<Key, NodeId>, after: map<Key, NodeId>, size: nat, key: Key)
    requires CacheGrows(before, after, size) && key in before
    ensures key in after && after[key] == before[key]
  {
  }

  /** The shader-package part of a material's children `head`: one node exactly when the package
      yields a game path, that node cached under the package's key, and the naming input read
      through it. */
  ghost predicate MaterialShpkOk(arena: seq<ResourceNode>, nodes: map<Key, NodeId>, head: seq<NodeId>, m: Material,
                                 input: NamingInput, withUiData: bool, isGamePath: seq<byte> -> bool,
                                 read: Option<seq<byte>> -> Option<ShaderFile>, samplersAt: Ptr -> seq<Sampler>)
    requires m.resourceHandle.Some?
  {
    var res := m.resourceHandle.value;
    var shpkPath := ShpkGamePath(res.shaderPackage, res.shpkName, isGamePath);
    && |head| == (if shpkPath.Some? then 1 else 0)
    && (shpkPath.Some? ==> ShpkChildOk(arena, nodes, head[0], res.shaderPackage.value, shpkPath.value, withUiData))
    && input == MaterialInput(m, arena, head, shpkPath.Some?, withUiData, read, samplersAt)
  }

  /** A material's node, once added to the cache, has the shape `MaterialNodeOk` describes. */
  lemma MaterialNodeBuilt(arena: seq<ResourceNode>, nodes3: map<Key, NodeId>, nodes4: map<Key, NodeId>, node: NodeId, m: Material,
                          head: seq<NodeId>, kids: seq<NodeId>, input: NamingInput, withUiData: bool, isGamePath: seq<byte> -> bool,
                          read: Option<seq<byte>> -> Option<ShaderFile>, samplersAt: Ptr -> seq<Sampler>)
    requires m.resourceHandle.Some?
    requires node < |arena| && node !in nodes3.Values
    requires arena[node] == NewNode(Mtrl, m.address, m.resourceHandle.value.resource, [], isGamePath).(children := head + kids)
    requires MaterialShpkOk(arena, nodes3, head, m, input, withUiData, isGamePath, read, samplersAt)
    requires TexturesOk(arena, nodes3, kids, input, m.resourceHandle.value.textures, withUiData, isGamePath, node,
                        |m.resourceHandle.value.textures|)
    requires MaterialKey(m.resourceHandle.value) !in nodes3 && nodes4 == nodes3[MaterialKey(m.resourceHandle.value) := node]
    ensures MaterialNodeOk(arena, nodes4, node, m, withUiData, isGamePath, read, samplersAt)
  {
    var res := m.resourceHandle.value;
    TexturesOkStable(arena, nodes3, arena, nodes4, kids, input, res.textures, withUiData, isGamePath, node, |res.textures|);
    assert arena[node].children[|head|..] == kids;
    if ShpkGamePath(res.shaderPackage, res.shpkName, isGamePath).Some? {
      assert arena[node].children[0] == head[0];
    }
  }

  /** Adding a key for a node at or past `size` keeps the cache growing. */
  lemma CacheGrowsAdd(nodes0: map<Key, NodeId>, nodes1: map<Key, NodeId>, key: Key, id: NodeId, size: nat)
    requires CacheGrows(nodes0, nodes1, size) && key !in nodes1 && size <= id
    ensures CacheGrows(nodes0, nodes1[key := id], size)
  {
  }

  /** The state while the texture slots of a material are walked: nodes other than the
      material's own are as they were at `arena1`, the material's children are its earlier
      children `head` followed by `kids`, and `kids` are the children of the first `n` slots. */
  ghost predicate TexturesAttached(arena1: seq<ResourceNode>, nodes1: map<Key, NodeId>, node: NodeId, head: seq<NodeId>,
                                   arena: seq<ResourceNode>, nodes: map<Key, NodeId>, kids: seq<NodeId>, input: NamingInput,
                                   slots: seq<TextureSlot>, withUiData: bool, isGamePath: seq<byte> -> bool, n: nat)
  {
    && n <= |slots|
    && node < |arena1| <= |arena|
    && (forall x | 0 <= x < |arena1| && x != node :: arena[x] == arena1[x])
    && arena[node] == arena1[node].(children := head + kids)
    && CacheGrows(nodes1, nodes, |arena1|)
    && node !in nodes.Values
    && TexturesOk(arena, nodes, kids, input, slots, withUiData, isGamePath, node, n)
  }

  lemma TexturesAttachedStep(arena1: seq<ResourceNode>, nodes1: map<Key, NodeId>, node: NodeId, head: seq<NodeId>,
                             arenaA: seq<ResourceNode>, nodesA: map<Key, NodeId>, arenaB: seq<ResourceNode>, nodesB: map<Key, NodeId>,
                             kids: seq<NodeId>, kid: Option<NodeId>, input: NamingInput, slots: seq<TextureSlot>,
                             withUiData: bool, isGamePath: seq<byte> -> bool, i: nat, visited: set<uint32>, visitedOut: set<uint32>)
    requires i < |slots|
    requires TexturesAttached(arena1, nodes1, node, head, arenaA, nodesA, kids, input, slots, withUiData, isGamePath, i)
    requires visited == NamesIn(input, slots, isGamePath, i).visited
    requires SlotAttached(arenaA, nodesA, arenaB, nodesB, node, kid, slots[i], SlotNaming(input, slots[i], i, visited).name,
                          withUiData, isGamePath)
    requires visitedOut == if kid.Some? then Consume(visited, SlotNaming(input, slots[i], i, visited)) else visited
    ensures TexturesAttached(arena1, nodes1, node, head, arenaB, nodesB, kids + (if kid.Some? then [kid.value] else []),
                             input, slots, withUiData, isGamePath, i + 1)
    ensures visitedOut == NamesIn(input, slots, isGamePath, i + 1).visited
  {
    TexturesOkStable(arenaA, nodesA, arenaB, nodesB, kids, input, slots, withUiData, isGamePath, node, i);
    CacheGrowsTrans(nodes1, nodesA, nodesB, |arena1|, |arenaA|);
    var kids2 := kids + (if kid.Some? then [kid.value] else []);
    var present := PresentSlots(slots, i + 1, isGamePath);
    var names := NamesIn(input, slots, isGamePath, i + 1).names;
    assert present == PresentSlots(slots, i, isGamePath) + (if kid.Some? then [i] else []);
    assert names == NamesIn(input, slots, isGamePath, i).names
                    + (if kid.Some? then [SlotNaming(input, slots[i], i, visited).name] else []);
    forall j | 0 <= j < |kids2|
      ensures TextureChildOk(arenaB, nodesB, kids2[j], slots[present[j]], names[j], withUiData, isGamePath, node)
    {
      if j < |kids| {
        assert kids2[j] == kids[j] && present[j] == PresentSlots(slots, i, isGamePath)[j]
          && names[j] == NamesIn(input, slots, isGamePath, i).names[j];
      }
    }
  }

  // ---------------------------------------------------------------------------------------
  // Models

  /** The positions below `n` of the materials of a model that yield a node, in increasing order. */
  function PresentMaterials(materials: seq<Option<Material>>, n: nat): (r: seq<nat>)
    requires n <= |materials|
    ensures forall j | 0 <= j < |r| :: r[j] < n && materials[r[j]].Some? && materials[r[j]].value.resourceHandle.Some?
    ensures forall j, k | 0 <= j < k < |r| :: r[j] < r[k]
  {
    if n == 0 then []
    else
      var m := materials[n - 1];
      PresentMaterials(materials, n - 1) + (if m.Some? && m.value.resourceHandle.Some? then [n - 1] else [])
  }

  /** Every material below `n` that yields a node is listed. */
  lemma {:induction false} PresentMaterialsComplete(materials: seq<Option<Material>>, n: nat)
    requires n <= |materials|
    ensures forall i | 0 <= i < n && materials[i].Some? && materials[i].value.resourceHandle.Some? ::
      i in PresentMaterials(materials, n)
  {
    if n > 0 {
      PresentMaterialsComplete(materials, n - 1);
    }
  }

  /** The children of a model's node for its first `n` materials: for every material that
      yields a node, in order, the cached node of the material's key. */
  ghost predicate MaterialChildrenOfModel(nodes: map<Key, NodeId>, kids: seq<NodeId>, materials: seq<Option<Material>>, n: nat)
    requires n <= |materials|
  {
    var present := PresentMaterials(materials, n);
    && |kids| == |present|
    && forall j | 0 <= j < |present| ::
         MaterialKey(materials[present[j]].value.resourceHandle.value) in nodes
         && nodes[MaterialKey(materials[present[j]].value.resourceHandle.value)] == kids[j]
  }

  /** With UI data, a material child carries "Material #i" for the last position i it was
      listed at: a material shared by several positions keeps the last name given. */
  ghost predicate MaterialFallbacks(arena: seq<ResourceNode>, kids: seq<NodeId>, materials: seq<Option<Material>>, n: nat)
    requires n <= |materials|
    requires |kids| == |PresentMaterials(materials, n)|
    requires forall j | 0 <= j < |kids| :: kids[j] < |arena|
  {
    var present := PresentMaterials(materials, n);
    forall j | 0 <= j < |kids| && (forall j2 | j < j2 < |kids| :: kids[j2] != kids[j]) ::
      arena[kids[j]].fallbackName == Some("Material #" + Decimal(present[j]))
  }

  /** The effect of one material of a model on the model's node `node`. */
  ghost predicate MaterialAttached(arena0: seq<ResourceNode>, nodes0: map<Key, NodeId>, arena: seq<ResourceNode>, nodes: map<Key, NodeId>,
                                   node: NodeId, r: Outcome, mtrl: Option<Material>, i: nat, withUiData: bool)
  {
    && node < |arena0| <= |arena|
    && (forall x | 0 <= x < |arena0| && x != node :: SameResource(arena0[x], arena[x]))
    && CacheGrows(nodes0, nodes, |arena0|)
    && node !in nodes.Values
    && (forall j | 0 <= j < |arena[node].children| :: arena[node].children[j] < |arena|)
    && match r
       case NoNode =>
         && (mtrl.None? || mtrl.value.resourceHandle.None?)
         && arena[node] == arena0[node]
         && FallbacksKept(arena0, arena)
       case DuplicateKey(key) =>
         key in nodes
       case Built(id) =>
         && mtrl.Some? && mtrl.value.resourceHandle.Some?
         && MaterialKey(mtrl.value.resourceHandle.value) in nodes
         && nodes[MaterialKey(mtrl.value.resourceHandle.value)] == id
         && id < |arena|
         && arena[node] == arena0[node].(children := arena0[node].children + [id])
         && (withUiData ==> arena[id].fallbackName == Some("Material #" + Decimal(i)))
         && (forall x | 0 <= x < |arena0| && x != id :: arena[x].fallbackName == arena0[x].fallbackName)
  }

  /** What any outcome of `CreateNodeFromMaterial` tells about the cache: no node only for a
      missing material or resource handle, and a node or a duplicate only under a cached key. */
  ghost predicate MaterialOutcome(nodes: map<Key, NodeId>, r: Outcome, mtrl: Option<Material>) {
    match r
    case NoNode => mtrl.None? || mtrl.value.resourceHandle.None?
    case Built(id) =>
      && mtrl.Some? && mtrl.value.resourceHandle.Some?
      && MaterialKey(mtrl.value.resourceHandle.value) in nodes
      && nodes[MaterialKey(mtrl.value.resourceHandle.value)] == id
    case DuplicateKey(key) => key in nodes
  }

  /** One material of a model: the material's node, given its "Material #i" fallback name with UI
      data, is appended to the model's children. */
  lemma MaterialAttachedFrom(arena0: seq<ResourceNode>, nodes0: map<Key, NodeId>, arena1: seq<ResourceNode>, nodes1: map<Key, NodeId>,
                             arena2: seq<ResourceNode>, arena3: seq<ResourceNode>, node: NodeId, r: Outcome,
                             mtrl: Option<Material>, i: nat, withUiData: bool)
    requires node < |arena0| && node !in nodes0.Values
    requires forall c | c in arena0[node].children :: c < |arena0|
    requires Preserves(arena0, arena1) && FallbacksKept(arena0, arena1)
    requires forall x | 0 <= x < |arena0| && x !in nodes0.Values :: arena1[x] == arena0[x]
    requires CacheGrows(nodes0, nodes1, |arena0|)
    requires mtrl.None? || mtrl.value.resourceHandle.None? ==> arena1 == arena0 && nodes1 == nodes0
    requires MaterialOutcome(nodes1, r, mtrl)
    requires forall k | k in nodes1 :: nodes1[k] < |arena1|
    requires arena2 == if r.Built? && withUiData then arena1[r.id := arena1[r.id].(fallbackName := Some("Material #" + Decimal(i)))] else arena1
    requires arena3 == if r.Built? then arena2[node := arena2[node].(children := arena2[node].children + [r.id])] else arena2
    ensures MaterialAttached(arena0, nodes0, arena3, nodes1, node, r, mtrl, i, withUiData)
  {
    NotCachedStays(nodes0, nodes1, |arena0|, node);
    assert arena1[node] == arena0[node];
    if r.Built? {
      var key := MaterialKey(mtrl.value.resourceHandle.value);
      assert nodes1[key] in nodes1.Values;
      assert r.id != node && r.id < |arena1|;
      assert arena2[node] == arena0[node];
      forall j | 0 <= j < |arena3[node].children|
        ensures arena3[node].children[j] < |arena3|
      {
        if j < |arena0[node].children| {
          assert arena0[node].children[j] in arena0[node].children;
        }
      }
    } else {
      forall j | 0 <= j < |arena3[node].children|
        ensures arena3[node].children[j] < |arena3|
      {
        assert arena0[node].children[j] in arena0[node].children;
      }
    }
  }

  /** The state while the materials of a model are walked. */
  ghost predicate ModelAttached(arena0: seq<ResourceNode>, nodes0: map<Key, NodeId>, node: NodeId, shape: ResourceNode,
                                arena: seq<ResourceNode>, nodes: map<Key, NodeId>, materials: seq<Option<Material>>,
                                withUiData: bool, n: nat)
  {
    && n <= |materials|
    && node == |arena0| && node < |arena|
    && Preserves(arena0, arena)
    && CacheGrows(nodes0, nodes, |arena0|)
    && node !in nodes.Values
    && arena[node].(children := []) == shape
    && (forall j | 0 <= j < |arena[node].children| :: arena[node].children[j] < |arena|)
    && MaterialChildrenOfModel(nodes, arena[node].children, materials, n)
    && (withUiData ==> MaterialFallbacks(arena, arena[node].children, materials, n))
  }

  lemma ModelChildrenStep(nodesA: map<Key, NodeId>, nodesB: map<Key, NodeId>, kidsA: seq<NodeId>, kids: seq<NodeId>,
                          materials: seq<Option<Material>>, i: nat, r: Outcome)
    requires i < |materials|
    requires MaterialChildrenOfModel(nodesA, kidsA, materials, i)
    requires forall k | k in nodesA :: k in nodesB && nodesB[k] == nodesA[k]
    requires r.NoNode? <==> materials[i].None? || materials[i].value.resourceHandle.None?
    requires !r.DuplicateKey?
    requires kids == kidsA + (if r.Built? then [r.id] else [])
    requires r.Built? ==> MaterialKey(materials[i].value.resourceHandle.value) in nodesB
                          && nodesB[MaterialKey(materials[i].value.resourceHandle.value)] == r.id
    ensures MaterialChildrenOfModel(nodesB, kids, materials, i + 1)
  {
    var presentA := PresentMaterials(materials, i);
    var present := PresentMaterials(materials, i + 1);
    assert present == presentA + (if r.Built? then [i] else []);
    forall j | 0 <= j < |present|
      ensures MaterialKey(materials[present[j]].value.resourceHandle.value) in nodesB
      ensures nodesB[MaterialKey(materials[present[j]].value.resourceHandle.value)] == kids[j]
    {
      if j < |presentA| {
        assert present[j] == presentA[j] && kids[j] == kidsA[j];
      }
    }
  }

  lemma ModelFallbacksStep(arenaA: seq<ResourceNode>, arenaB: seq<ResourceNode>, kidsA: seq<NodeId>, kids: seq<NodeId>,
                           materials: seq<Option<Material>>, i: nat, r: Outcome)
    requires i < |materials|
    requires |kidsA| == |PresentMaterials(materials, i)| && |arenaA| <= |arenaB|
    requires forall j | 0 <= j < |kidsA| :: kidsA[j] < |arenaA|
    requires MaterialFallbacks(arenaA, kidsA, materials, i)
    requires r.NoNode? <==> materials[i].None? || materials[i].value.resourceHandle.None?
    requires !r.DuplicateKey?
    requires kids == kidsA + (if r.Built? then [r.id] else [])
    requires r.Built? ==> r.id < |arenaB| && arenaB[r.id].fallbackName == Some("Material #" + Decimal(i))
    requires forall x | 0 <= x < |arenaA| && !(r.Built? && x == r.id) :: arenaB[x].fallbackName == arenaA[x].fallbackName
    ensures |kids| == |PresentMaterials(materials, i + 1)|
    ensures forall j | 0 <= j < |kids| :: kids[j] < |arenaB|
    ensures MaterialFallbacks(arenaB, kids, materials, i + 1)
  {
    var presentA := PresentMaterials(materials, i);
    var present := PresentMaterials(materials, i + 1);
    assert present == presentA + (if r.Built? then [i] else []);
    forall j | 0 <= j < |kids| && (forall j2 | j < j2 < |kids| :: kids[j2] != kids[j])
      ensures arenaB[kids[j]].fallbackName == Some("Material #" + Decimal(present[j]))
    {
      if j < |kidsA| {
        assert kids[j] == kidsA[j] && present[j] == presentA[j];
        assert forall j2 | j < j2 < |kidsA| :: kidsA[j2] == kids[j2];
        if r.Built? {
          assert kids[|kids| - 1] == r.id;
        }
      }
    }
  }

  lemma ModelAttachedStep(arena0: seq<ResourceNode>, nodes0: map<Key, NodeId>, node: NodeId, shape: ResourceNode,
                          arenaA: seq<ResourceNode>, nodesA: map<Key, NodeId>, arenaB: seq<ResourceNode>, nodesB: map<Key, NodeId>,
                          materials: seq<Option<Material>>, withUiData: bool, i: nat, r: Outcome)
    requires i < |materials|
    requires ModelAttached(arena0, nodes0, node, shape, arenaA, nodesA, materials, withUiData, i)
    requires MaterialAttached(arenaA, nodesA, arenaB, nodesB, node, r, materials[i], i, withUiData)
    requires !r.DuplicateKey?
    ensures ModelAttached(arena0, nodes0, node, shape, arenaB, nodesB, materials, withUiData, i + 1)
  {
    forall x | 0 <= x < |arena0|
      ensures SameResource(arena0[x], arenaB[x])
    {
      assert x != node && SameResource(arenaA[x], arenaB[x]);
    }
    CacheGrowsTrans(nodes0, nodesA, nodesB, |arena0|, |arenaA|);
    var kidsA := arenaA[node].children;
    var kids := arenaB[node].children;
    assert kids == kidsA + (if r.Built? then [r.id] else []);
    ModelChildrenStep(nodesA, nodesB, kidsA, kids, materials, i, r);
    if withUiData {
      ModelFallbacksStep(arenaA, arenaB, kidsA, kids, materials, i, r);
    }
  }

  /** A node just appended is in no cache entry. */
  lemma NotCachedYet(nodes: map<Key, NodeId>, size: nat)
    requires forall k | k in nodes :: nodes[k] < size
    ensures size !in nodes.Values
  {
  }

  /** Attaching materials leaves every node built before the model's own as it was. */
  lemma ModelPreserved(arena0: seq<ResourceNode>, arenaA: seq<ResourceNode>, arenaB: seq<ResourceNode>, node: NodeId)
    requires Preserves(arena0, arenaA) && node == |arena0| && |arenaA| <= |arenaB|
    requires forall x | 0 <= x < |arenaA| && x != node :: SameResource(arenaA[x], arenaB[x])
    ensures Preserves(arena0, arenaB)
  {
  }

  lemma MaterialChildrenOfModelStable(nodes: map<Key, NodeId>, nodes2: map<Key, NodeId>, kids: seq<NodeId>,
                                      materials: seq<Option<Material>>, n: nat)
    requires n <= |materials|
    requires MaterialChildrenOfModel(nodes, kids, materials, n)
    requires forall k | k in nodes :: k in nodes2 && nodes2[k] == nodes[k]
    ensures MaterialChildrenOfModel(nodes2, kids, materials, n)
  {
  }

  /** What building a model's node on a cache miss yields: the new node, cached under its key,
      whose children are the model's materials in order; or an `Add` failure, met while
      building the model or one of its materials. */
  ghost predicate ModelBuilt(arena: seq<ResourceNode>, nodes: map<Key, NodeId>, r: Outcome, mdl: Model,
                             withUiData: bool, isGamePath: seq<byte> -> bool, size: nat)
    requires mdl.resourceHandle.Some?
  {
    var key := Key([], mdl.resourceHandle.value.address);
    && (r == Built(size) || r.DuplicateKey?)
    && (r.DuplicateKey? ==> r.key in nodes)
    && (r.Built? ==> key in nodes && nodes[key] == r.id && ModelNodeOk(arena, nodes, r.id, mdl, withUiData, isGamePath))
  }

  /** A built model's node: the model's fresh node whose children are its materials' nodes in
      order, with their fallback names when UI data is on. */
  ghost predicate ModelNodeOk(arena: seq<ResourceNode>, nodes: map<Key, NodeId>, id: NodeId, mdl: Model,
                              withUiData: bool, isGamePath: seq<byte> -> bool)
    requires mdl.resourceHandle.Some?
  {
    && id < |arena|
    && arena[id].(children := []) == NewNode(Mdl, mdl.address, mdl.resourceHandle.value, [], isGamePath)
    && (forall j | 0 <= j < |arena[id].children| :: arena[id].children[j] < |arena|)
    && MaterialChildrenOfModel(nodes, arena[id].children, mdl.materials, |mdl.materials|)
    && (withUiData ==> MaterialFallbacks(arena, arena[id].children, mdl.materials, |mdl.materials|))
  }

  /** A model's fresh node, before any material is attached. */
  lemma ModelStarted(arena0: seq<ResourceNode>, nodes0: map<Key, NodeId>, node: NodeId, arena1: seq<ResourceNode>,
                     mdl: Model, withUiData: bool, isGamePath: seq<byte> -> bool)
    requires mdl.resourceHandle.Some?
    requires forall k | k in nodes0 :: nodes0[k] < |arena0|
    requires node == |arena0| && arena1 == arena0 + [NewNode(Mdl, mdl.address, mdl.resourceHandle.value, [], isGamePath)]
    ensures ModelAttached(arena0, nodes0, node, NewNode(Mdl, mdl.address, mdl.resourceHandle.value, [], isGamePath),
                          arena1, nodes0, mdl.materials, withUiData, 0)
  {
    NotCachedYet(nodes0, |arena0|);
    assert arena1[node].children == [];
  }

  /** A model whose own key was cached while its materials were built yields the `Add` failure. */
  lemma ModelDuplicate(arena0: seq<ResourceNode>, nodes0: map<Key, NodeId>, node: NodeId, shape: ResourceNode,
                       arena: seq<ResourceNode>, nodes: map<Key, NodeId>, mdl: Model, withUiData: bool, isGamePath: seq<byte> -> bool)
    requires mdl.resourceHandle.Some?
    requires ModelAttached(arena0, nodes0, node, shape, arena, nodes, mdl.materials, withUiData, |mdl.materials|)
    requires Key([], mdl.resourceHandle.value.address) in nodes
    ensures Preserves(arena0, arena)
    ensures CacheGrows(nodes0, nodes, |arena0|)
    ensures ModelBuilt(arena, nodes, DuplicateKey(Key([], mdl.resourceHandle.value.address)), mdl, withUiData, isGamePath, |arena0|)
  {
  }

  /** A model whose materials were all attached, once added to the cache, is built. */
  lemma ModelFinished(arena0: seq<ResourceNode>, nodes0: map<Key, NodeId>, node: NodeId, arena: seq<ResourceNode>,
                      nodes1: map<Key, NodeId>, nodes2: map<Key, NodeId>, mdl: Model, withUiData: bool, isGamePath: seq<byte> -> bool)
    requires mdl.resourceHandle.Some?
    requires ModelAttached(arena0, nodes0, node, NewNode(Mdl, mdl.address, mdl.resourceHandle.value, [], isGamePath),
                           arena, nodes1, mdl.materials, withUiData, |mdl.materials|)
    requires Key([], mdl.resourceHandle.value.address) !in nodes1 && nodes2 == nodes1[Key([], mdl.resourceHandle.value.address) := node]
    ensures Preserves(arena0, arena)
    ensures CacheGrows(nodes0, nodes2, |arena0|)
    ensures ModelBuilt(arena, nodes2, Built(node), mdl, withUiData, isGamePath, |arena0|)
  {
    var key := Key([], mdl.resourceHandle.value.address);
    MaterialChildrenOfModelStable(nodes1, nodes2, arena[node].children, mdl.materials, |mdl.materials|);
    CacheGrowsAdd(nodes0, nodes1, key, node, |arena0|);
    assert ModelNodeOk(arena, nodes2, node, mdl, withUiData, isGamePath);
  }

  /** A model whose material met an `Add` failure yields that failure. */
  lemma ModelAborted(arena0: seq<ResourceNode>, nodes0: map<Key, NodeId>, node: NodeId, shape: ResourceNode,
                     arenaA: seq<ResourceNode>, nodesA: map<Key, NodeId>, arenaB: seq<ResourceNode>, nodesB: map<Key, NodeId>,
                     mdl: Model, r: Outcome, i: nat, withUiData: bool, isGamePath: seq<byte> -> bool)
    requires mdl.resourceHandle.Some? && i < |mdl.materials| && r.DuplicateKey?
    requires ModelAttached(arena0, nodes0, node, shape, arenaA, nodesA, mdl.materials, withUiData, i)
    requires MaterialAttached(arenaA, nodesA, arenaB, nodesB, node, r, mdl.materials[i], i, withUiData)
    ensures Preserves(arena0, arenaB)
    ensures CacheGrows(nodes0, nodesB, |arena0|)
    ensures ModelBuilt(arenaB, nodesB, r, mdl, withUiData, isGamePath, |arena0|)
  {
    ModelPreserved(arena0, arenaA, arenaB, node);
    CacheGrowsTrans(nodes0, nodesA, nodesB, |arena0|, |arenaA|);
  }

  // ---------------------------------------------------------------------------------------
  // Partial skeletons

  /** The parameter node of a partial skeleton, as `CreateParameterNodeFromPartialSkeleton` makes it. */
  function SkpNode(sklb: PartialSkeleton, handle: ResourceHandle, withUiData: bool, isGamePath: seq<byte> -> bool): ResourceNode {
    NewNode(Skp, sklb.address, handle, [], isGamePath).(fallbackName := if withUiData then Some("Skeleton Parameters") else None)
  }

  /** What building a partial skeleton's node on a cache miss yields: the `Add` throws exactly
      when the parameter handle is the skeleton handle itself (both keys have an empty game
      path); otherwise the new node, cached under its key, with the parameter node as only child. */
  ghost predicate SkeletonBuilt(arena: seq<ResourceNode>, nodes: map<Key, NodeId>, r: Outcome, sklb: PartialSkeleton,
                                isGamePath: seq<byte> -> bool, size: nat)
    requires sklb.skeletonHandle.Some?
  {
    var key := Key([], sklb.skeletonHandle.value.address);
    && (r.DuplicateKey? <==> sklb.parameterHandle.Some? && sklb.parameterHandle.value.address == sklb.skeletonHandle.value.address)
    && (r.DuplicateKey? ==> r.key == key)
    && (r.Built? ==> r.id == size)
    && !r.NoNode?
    && (r.Built? ==>
          && key in nodes && nodes[key] == r.id && r.id < |arena|
          && (sklb.parameterHandle.Some? ==> Key([], sklb.parameterHandle.value.address) in nodes)
          && arena[r.id] == NewNode(Sklb, sklb.address, sklb.skeletonHandle.value, [], isGamePath)
               .(children := if sklb.parameterHandle.Some? then [nodes[Key([], sklb.parameterHandle.value.address)]] else []))
  }

  /** A cache that only gained `added` holds a key missing before exactly when it is `added`. */
  lemma OnlyKeyAdded(nodes0: map<Key, NodeId>, nodes1: map<Key, NodeId>, added: Key, key: Key)
    requires key !in nodes0 && added in nodes1
    requires forall k | k in nodes1 && k !in nodes0 :: k == added
    ensures key in nodes1 <==> key == added
  {
  }

  /** The skeleton's steps before its `Add` keep earlier nodes' resources and only grow the
      cache past them; `node` is the fresh node. */
  ghost predicate SkeletonFramed(arena0: seq<ResourceNode>, nodes0: map<Key, NodeId>, arena: seq<ResourceNode>,
                                 nodes: map<Key, NodeId>, node: NodeId)
  {
    && node == |arena0| && node < |arena|
    && Preserves(arena0, arena)
    && CacheGrows(nodes0, nodes, |arena0|)
  }

  /** The skeleton's node before its `Add`: the fresh node with the parameter node `pid` as only
      child, and the cache already holds the skeleton's key only when it is the parameter's. */
  ghost predicate SkeletonLinked(arena: seq<ResourceNode>, nodes: map<Key, NodeId>,
                                 node: NodeId, pid: NodeId, sklb: PartialSkeleton, isGamePath: seq<byte> -> bool)
    requires sklb.skeletonHandle.Some? && sklb.parameterHandle.Some?
  {
    && node < |arena|
    && arena[node] == NewNode(Sklb, sklb.address, sklb.skeletonHandle.value, [], isGamePath).(children := [pid])
    && Key([], sklb.parameterHandle.value.address) in nodes && nodes[Key([], sklb.parameterHandle.value.address)] == pid
    && (Key([], sklb.skeletonHandle.value.address) in nodes
        <==> sklb.parameterHandle.value.address == sklb.skeletonHandle.value.address)
  }

  /** A node appended at `node`, then a fetch that keeps the arena's prefix, then one more
      child on `node`: earlier nodes keep their resources and the cache only gained ids past
      them. */
  lemma AppendedFrame(arena0: seq<ResourceNode>, nodes0: map<Key, NodeId>, arena1: seq<ResourceNode>,
                      arena2: seq<ResourceNode>, nodes2: map<Key, NodeId>, arena3: seq<ResourceNode>,
                      created: ResourceNode, node: NodeId, pkey: Key, pid: NodeId)
    requires node == |arena0| && arena1 == arena0 + [created]
    requires Fetched(arena1, nodes0, arena2, nodes2, pkey, pid)
    requires arena3 == arena2[node := arena2[node].(children := arena2[node].children + [pid])]
    ensures Preserves(arena0, arena3)
    ensures CacheGrows(nodes0, nodes2, |arena0|)
  {
    forall i | 0 <= i < |arena0|
      ensures SameResource(arena0[i], arena3[i])
    {
      assert arena3[i] == arena2[i] == arena1[i] == arena0[i];
    }
  }

  /** The same steps, seen from `node`: it is the appended node with `pid` as a further child. */
  lemma AppendedChild(arena0: seq<ResourceNode>, nodes0: map<Key, NodeId>, arena1: seq<ResourceNode>,
                      arena2: seq<ResourceNode>, nodes2: map<Key, NodeId>, arena3: seq<ResourceNode>,
                      created: ResourceNode, node: NodeId, pkey: Key, pid: NodeId)
    requires node == |arena0| && arena1 == arena0 + [created]
    requires Fetched(arena1, nodes0, arena2, nodes2, pkey, pid)
    requires arena3 == arena2[node := arena2[node].(children := arena2[node].children + [pid])]
    ensures node < |arena3| && arena3[node] == created.(children := created.children + [pid])
  {
    assert arena2[node] == arena1[node] == created;
  }

  /** Node creation followed by the parameter node as only child keeps the frame. */
  lemma SkeletonWithParameterFramed(arena0: seq<ResourceNode>, nodes0: map<Key, NodeId>, arena1: seq<ResourceNode>,
                                    arena2: seq<ResourceNode>, nodes2: map<Key, NodeId>, arena3: seq<ResourceNode>,
                                    created: ResourceNode, node: NodeId, pkey: Key, pid: NodeId)
    requires node == |arena0| && arena1 == arena0 + [created]
    requires Fetched(arena1, nodes0, arena2, nodes2, pkey, pid)
    requires arena3 == arena2[node := arena2[node].(children := arena2[node].children + [pid])]
    ensures SkeletonFramed(arena0, nodes0, arena3, nodes2, node)
  {
    AppendedFrame(arena0, nodes0, arena1, arena2, nodes2, arena3, created, node, pkey, pid);
  }

  /** The skeleton's node carrying the parameter node `pid` as its only child, with the
      parameter's key mapped to `pid` and no other key added, is linked. */
  lemma SkeletonWithParameter(arena: seq<ResourceNode>, nodes: map<Key, NodeId>,
                              node: NodeId, pid: NodeId, sklb: PartialSkeleton, isGamePath: seq<byte> -> bool)
    requires sklb.skeletonHandle.Some? && sklb.parameterHandle.Some?
    requires node < |arena|
    requires arena[node] == NewNode(Sklb, sklb.address, sklb.skeletonHandle.value, [], isGamePath).(children :=
               NewNode(Sklb, sklb.address, sklb.skeletonHandle.value, [], isGamePath).children + [pid])
    requires Key([], sklb.parameterHandle.value.address) in nodes && nodes[Key([], sklb.parameterHandle.value.address)] == pid
    requires Key([], sklb.skeletonHandle.value.address) in nodes
             <==> Key([], sklb.skeletonHandle.value.address) == Key([], sklb.parameterHandle.value.address)
    ensures SkeletonLinked(arena, nodes, node, pid, sklb, isGamePath)
  {
    assert [] + [pid] == [pid];
  }

  /** A ready skeleton node that is added to the cache is built. */
  lemma SkeletonAdded(arena0: seq<ResourceNode>, nodes0: map<Key, NodeId>, arena: seq<ResourceNode>, nodes: map<Key, NodeId>,
                      nodes2: map<Key, NodeId>, node: NodeId, pid: NodeId, sklb: PartialSkeleton, isGamePath: seq<byte> -> bool)
    requires sklb.skeletonHandle.Some? && sklb.parameterHandle.Some?
    requires SkeletonFramed(arena0, nodes0, arena, nodes, node)
    requires SkeletonLinked(arena, nodes, node, pid, sklb, isGamePath)
    requires Key([], sklb.skeletonHandle.value.address) !in nodes
    requires nodes2 == nodes[Key([], sklb.skeletonHandle.value.address) := node]
    ensures CacheGrows(nodes0, nodes2, |arena0|)
    ensures SkeletonBuilt(arena, nodes2, Built(node), sklb, isGamePath, |arena0|)
  {
    CacheGrowsAdd(nodes0, nodes, Key([], sklb.skeletonHandle.value.address), node, |arena0|);
  }

  /** A ready skeleton node whose key is already cached (it is its own parameter node's key)
      yields the `Add` failure. */
  lemma SkeletonDuplicate(arena0: seq<ResourceNode>, nodes0: map<Key, NodeId>, arena: seq<ResourceNode>, nodes: map<Key, NodeId>,
                          node: NodeId, pid: NodeId, sklb: PartialSkeleton, isGamePath: seq<byte> -> bool)
    requires sklb.skeletonHandle.Some? && sklb.parameterHandle.Some?
    requires SkeletonFramed(arena0, nodes0, arena, nodes, node)
    requires SkeletonLinked(arena, nodes, node, pid, sklb, isGamePath)
    requires Key([], sklb.skeletonHandle.value.address) in nodes
    ensures SkeletonBuilt(arena, nodes, DuplicateKey(Key([], sklb.skeletonHandle.value.address)), sklb, isGamePath, |arena0|)
  {
  }

  /** Putting the skeleton's steps together when it has no parameter node. */
  lemma SkeletonWithoutParameter(arena0: seq<ResourceNode>, nodes0: map<Key, NodeId>, arena1: seq<ResourceNode>,
                                 nodes3: map<Key, NodeId>, node: NodeId, sklb: PartialSkeleton, isGamePath: seq<byte> -> bool)
    requires sklb.skeletonHandle.Some? && sklb.parameterHandle.None?
    requires Key([], sklb.skeletonHandle.value.address) !in nodes0
    requires node == |arena0| && arena1 == arena0 + [NewNode(Sklb, sklb.address, sklb.skeletonHandle.value, [], isGamePath)]
    requires nodes3 == nodes0[Key([], sklb.skeletonHandle.value.address) := node]
    ensures Preserves(arena0, arena1)
    ensures CacheGrows(nodes0, nodes3, |arena0|)
    ensures SkeletonBuilt(arena1, nodes3, Built(node), sklb, isGamePath, |arena0|)
  {
    forall i | 0 <= i < |arena0|
      ensures SameResource(arena0[i], arena1[i])
    {
      assert arena1[i] == arena0[i];
    }
  }

  /** The cache and the arena agree: every cached node lies in the arena and carries its key's
      game path and handle, and every child is a node of the arena. */
  ghost predicate Linked(arena: seq<ResourceNode>, nodes: map<Key, NodeId>) {
    && (forall k | k in nodes :: nodes[k] < |arena| && arena[nodes[k]].gamePath == k.gamePath && arena[nodes[k]].resourceHandle == k.handle)
    && (forall i | 0 <= i < |arena| :: forall c | c in arena[i].children :: c < |arena|)
  }

  /** Appending a childless node keeps the arena linked. */
  lemma LinkedAppend(arena: seq<ResourceNode>, nodes: map<Key, NodeId>, node: ResourceNode)
    requires Linked(arena, nodes) && node.children == []
    ensures Linked(arena + [node], nodes)
  {
    var arena2 := arena + [node];
    forall i | 0 <= i < |arena2|
      ensures forall c | c in arena2[i].children :: c < |arena2|
    {
      if i < |arena| {
        assert arena2[i] == arena[i];
      }
    }
    forall k | k in nodes
      ensures nodes[k] < |arena2| && arena2[nodes[k]] == arena[nodes[k]]
    {
    }
  }

  /** The pass-wide state: the flags and collaborators the pass was created with, the node cache
      (`Nodes`) and the arena every node lives in. */
  class GlobalResolveContext {
    const withUiData: bool
    const skeleton: int
    /** `Utf8GamePath.FromByteString` / `FromSpan` succeed on these bytes. */
    const isGamePath: seq<byte> -> bool
    /** `TreeBuildCache.ReadShaderPackage` on a full path. */
    const readShaderPackage: Option<seq<byte>> -> Option<ShaderFile>
    /** The sampler table of the `ShaderPackage` at an address. */
    const samplersAt: Ptr -> seq<Sampler>
    var nodes: map<Key, NodeId>
    var arena: seq<ResourceNode>

    /** Every cached node exists and carries its key; every child exists. */
    ghost predicate Valid()
      reads this
    {
      Linked(arena, nodes)
    }

    constructor(withUiData: bool, skeleton: int, isGamePath: seq<byte> -> bool,
                readShaderPackage: Option<seq<byte>> -> Option<ShaderFile>, samplersAt: Ptr -> seq<Sampler>)
      ensures Valid() && nodes == map[] && arena == []
      ensures this.withUiData == withUiData && this.skeleton == skeleton && this.isGamePath == isGamePath
      ensures this.readShaderPackage == readShaderPackage && this.samplersAt == samplersAt
    {
      this.withUiData := withUiData;
      this.skeleton := skeleton;
      this.isGamePath := isGamePath;
      this.readShaderPackage := readShaderPackage;
      this.samplersAt := samplersAt;
      nodes := map[];
      arena := [];
    }

    /** `Nodes.Add`: adds the key, or fails (throws) when it is already present. */
    method Add(key: Key, id: NodeId) returns (added: bool)
      requires Valid()
      requires id < |arena| && arena[id].gamePath == key.gamePath && arena[id].resourceHandle == key.handle
      modifies this
      ensures Valid()
      ensures added == (key !in old(nodes))
      ensures nodes == if added then old(nodes)[key := id] else old(nodes)
      ensures arena == old(arena)
    {
      added := key !in nodes;
      if added {
        nodes := nodes[key := id];
      }
    }

    /** `node.Children.Add(child)`. */
    method AddChild(parent: NodeId, child: NodeId)
      requires Valid() && parent < |arena| && child < |arena|
      modifies this
      ensures Valid() && nodes == old(nodes)
      ensures arena == old(arena)[parent := old(arena)[parent].(children := old(arena)[parent].children + [child])]
    {
      arena := arena[parent := arena[parent].(children := arena[parent].children + [child])];
    }

    /** `node.Name = name`. */
    method SetName(id: NodeId, name: string)
      requires Valid() && id < |arena|
      modifies this
      ensures Valid() && nodes == old(nodes)
      ensures arena == old(arena)[id := old(arena)[id].(name := Some(name))]
    {
      arena := arena[id := arena[id].(name := Some(name))];
    }

    /** `node.FallbackName = name`. */
    method SetFallbackName(id: NodeId, name: string)
      requires Valid() && id < |arena|
      modifies this
      ensures Valid() && nodes == old(nodes)
      ensures arena == old(arena)[id := old(arena)[id].(fallbackName := Some(name))]
    {
      arena := arena[id := arena[id].(fallbackName := Some(name))];
    }

    /** `node.Clone()`: a new node equal to the original, not in the cache. */
    method Clone(id: NodeId) returns (copy: NodeId)
      requires Valid() && id < |arena|
      modifies this
      ensures Valid() && nodes == old(nodes)
      ensures copy == |old(arena)| && arena == old(arena) + [old(arena)[id]]
    {
      copy := |arena|;
      arena := arena + [arena[id]];
    }
  }
}
