/** The builders of one resolve context: each turns one kind of host object into a resource
    node, going through the pass-wide cache so that one resource handle met along several
    paths yields one shared node. */
module Resolver {
  import opened Wrappers
  import opened ByteStrings
  import opened Formatting
  import opened Host
  import opened GamePaths
  import opened TextureNaming
  import opened ResourceTree

  /** `ResolveContext`: the builders for one equipment slot of one pass. */
  class ResolveContext {
    const global: GlobalResolveContext
    const slot: EquipSlot
    const equipment: CharacterArmor

    /** `GlobalResolveContext.CreateContext`. */
    constructor(global: GlobalResolveContext, slot: EquipSlot, equipment: CharacterArmor)
      ensures this.global == global && this.slot == slot && this.equipment == equipment
    {
      this.global := global;
      this.slot := slot;
      this.equipment := equipment;
    }

    /** `CreateNode` without adding to the cache: a new node at the end of the arena. */
    method CreateNode(kind: ResourceType, objectAddress: Ptr, handle: ResourceHandle, gamePath: seq<byte>) returns (id: NodeId)
      requires global.Valid()
      modifies global
      ensures global.Valid()
      ensures id == |old(global.arena)|
      ensures global.arena == old(global.arena) + [NewNode(kind, objectAddress, handle, gamePath, global.isGamePath)]
      ensures global.nodes == old(global.nodes)
    {
      var fullPath := if global.isGamePath(ResourceHandlePath(Some(handle.fileName)))
        then Some(ResourceHandlePath(Some(handle.fileName))) else None;
      var node := ResourceNode(kind, objectAddress, handle.address, handle.length, gamePath, fullPath, None, None, []);
      id := |global.arena|;
      LinkedAppend(global.arena, global.nodes, node);
      global.arena := global.arena + [node];
    }

    /** `GetOrCreateNode`: the cached node for (game path, handle), or a new one added under that key. */
    method GetOrCreateNode(kind: ResourceType, objectAddress: Ptr, handle: ResourceHandle, gamePath: seq<byte>) returns (id: NodeId)
      requires global.Valid()
      modifies global
      ensures global.Valid()
      ensures GotOrCreated(old(global.arena), old(global.nodes), global.arena, global.nodes, Key(gamePath, handle.address),
                           NewNode(kind, objectAddress, handle, gamePath, global.isGamePath), id)
      ensures id < |global.arena| && global.arena[id].gamePath == gamePath && global.arena[id].resourceHandle == handle.address
    {
      var key := Key(gamePath, handle.address);
      if key in global.nodes {
        return global.nodes[key];
      }
      id := CreateNode(kind, objectAddress, handle, gamePath);
      var added := global.Add(key, id);
    }

    /** Cache identity: asking twice for the same (game path, handle) yields the same node,
        and the second request changes nothing. */
    method GetOrCreateNodeTwice(kind: ResourceType, objectAddress: Ptr, handle: ResourceHandle, gamePath: seq<byte>)
      returns (first: NodeId, second: NodeId)
      requires global.Valid()
      modifies global
      ensures global.Valid()
      ensures first == second
      ensures global.nodes == old(global.nodes)[Key(gamePath, handle.address) := first]
      ensures |global.arena| <= |old(global.arena)| + 1
    {
      ghost var arena0, nodes0 := global.arena, global.nodes;
      first := GetOrCreateNode(kind, objectAddress, handle, gamePath);
      ghost var arena1, nodes1 := global.arena, global.nodes;
      second := GetOrCreateNode(kind, objectAddress, handle, gamePath);
      GotOrCreatedTwice(arena0, nodes0, arena1, nodes1, global.arena, global.nodes, Key(gamePath, handle.address),
                        NewNode(kind, objectAddress, handle, gamePath, global.isGamePath), first, second);
    }

    /** `CreateNodeFromShpk`: a shader-package node under `shader/sm5/shpk/<name>`. */
    method CreateNodeFromShpk(handle: Option<ShaderPackageHandle>, gamePath: seq<byte>) returns (r: Option<NodeId>)
      requires global.Valid()
      modifies global
      ensures global.Valid()
      ensures var p := ShpkGamePath(handle, gamePath, global.isGamePath);
        && (p.None? ==> r.None? && global.arena == old(global.arena) && global.nodes == old(global.nodes))
        && (p.Some? ==> r.Some? && GotOrCreated(old(global.arena), old(global.nodes), global.arena, global.nodes,
              Key(p.value, handle.value.resource.address),
              NewNode(Shpk, handle.value.shaderPackage, handle.value.resource, p.value, global.isGamePath), r.value))
    {
      if handle.None? || gamePath == [] {
        return None;
      }
      var path := ShpkPrefix + [Slash] + gamePath;
      if !global.isGamePath(path) {
        return None;
      }
      var id := GetOrCreateNode(Shpk, handle.value.shaderPackage, handle.value.resource, path);
      return Some(id);
    }

    /** `CreateNodeFromTex` (material texture slots): the DX11 rewrite, then the cached or new node. */
    method CreateNodeFromTex(handle: Option<TextureHandle>, gamePath: seq<byte>, dx11: bool) returns (r: Option<NodeId>)
      requires global.Valid()
      modifies global
      ensures global.Valid()
      ensures var p := TexGamePath(handle, gamePath, dx11, global.isGamePath);
        && (p.None? ==> r.None? && global.arena == old(global.arena) && global.nodes == old(global.nodes))
        && (p.Some? ==> r.Some? && GotOrCreated(old(global.arena), old(global.nodes), global.arena, global.nodes,
              Key(p.value, handle.value.resource.address),
              NewNode(Tex, handle.value.texture, handle.value.resource, p.value, global.isGamePath), r.value))
    {
      if handle.None? {
        return None;
      }
      var path := gamePath;
      if dx11 {
        var sep := LastIndexOf(path, Slash);
        if sep == -1 || sep > |path| - 3 {
          return None;
        }
        if path[sep + 1] != Dash || path[sep + 2] != Dash {
          var prefixed := path[..sep + 1] + [Dash, Dash] + path[sep + 1..];
          if !global.isGamePath(prefixed) {
            return None;
          }
          path := prefixed;
        }
      }
      if !global.isGamePath(path) {
        return None;
      }
      var id := GetOrCreateNode(Tex, handle.value.texture, handle.value.resource, path);
      return Some(id);
    }

    /** `CreateNodeFromTex(TextureResourceHandle*)`: a texture node with an empty game path. */
    method CreateNodeFromTexHandle(tex: Option<TextureHandle>) returns (r: Option<NodeId>)
      requires global.Valid()
      modifies global
      ensures global.Valid()
      ensures tex.None? ==> r.None? && global.arena == old(global.arena) && global.nodes == old(global.nodes)
      ensures tex.Some? ==> r.Some? && GotOrCreated(old(global.arena), old(global.nodes), global.arena, global.nodes,
        Key([], tex.value.resource.address), NewNode(Tex, tex.value.texture, tex.value.resource, [], global.isGamePath), r.value)
    {
      if tex.None? {
        return None;
      }
      var id := GetOrCreateNode(Tex, tex.value.texture, tex.value.resource, []);
      return Some(id);
    }

    /** `CreateNodeFromEid`: an opaque node with an empty game path and no object address. */
    method CreateNodeFromEid(eid: Option<ResourceHandle>) returns (r: Option<NodeId>)
      requires global.Valid()
      modifies global
      ensures global.Valid()
      ensures eid.None? ==> r.None? && global.arena == old(global.arena) && global.nodes == old(global.nodes)
      ensures eid.Some? ==> r.Some? && GotOrCreated(old(global.arena), old(global.nodes), global.arena, global.nodes,
        Key([], eid.value.address), NewNode(Eid, Null, eid.value, [], global.isGamePath), r.value)
    {
      if eid.None? {
        return None;
      }
      var id := GetOrCreateNode(Eid, Null, eid.value, []);
      return Some(id);
    }

    /** `CreateNodeFromImc`: an opaque node with an empty game path and no object address. */
    method CreateNodeFromImc(imc: Option<ResourceHandle>) returns (r: Option<NodeId>)
      requires global.Valid()
      modifies global
      ensures global.Valid()
      ensures imc.None? ==> r.None? && global.arena == old(global.arena) && global.nodes == old(global.nodes)
      ensures imc.Some? ==> r.Some? && GotOrCreated(old(global.arena), old(global.nodes), global.arena, global.nodes,
        Key([], imc.value.address), NewNode(Imc, Null, imc.value, [], global.isGamePath), r.value)
    {
      if imc.None? {
        return None;
      }
      var id := GetOrCreateNode(Imc, Null, imc.value, []);
      return Some(id);
    }

    /** `CreateNodeFromMaterial`: the material's node (empty game path), its shader package,
        then one child per texture slot; with UI data every texture child is a named copy. */
    method CreateNodeFromMaterial(mtrl: Option<Material>) returns (r: Outcome)
      requires global.Valid()
      modifies global
      ensures global.Valid()
      ensures Preserves(old(global.arena), global.arena) && FallbacksKept(old(global.arena), global.arena)
      ensures forall x | 0 <= x < |old(global.arena)| && x !in old(global.nodes).Values :: global.arena[x] == old(global.arena)[x]
      ensures CacheGrows(old(global.nodes), global.nodes, |old(global.arena)|)
      ensures MaterialOutcome(global.nodes, r, mtrl)
      ensures mtrl.None? || mtrl.value.resourceHandle.None? ==>
        r == NoNode && global.arena == old(global.arena) && global.nodes == old(global.nodes)
      ensures mtrl.Some? && mtrl.value.resourceHandle.Some? && MaterialKey(mtrl.value.resourceHandle.value) in old(global.nodes) ==>
        r == Built(old(global.nodes)[MaterialKey(mtrl.value.resourceHandle.value)])
        && global.arena == old(global.arena) && global.nodes == old(global.nodes)
      ensures mtrl.Some? && mtrl.value.resourceHandle.Some? && MaterialKey(mtrl.value.resourceHandle.value) !in old(global.nodes) ==>
        MaterialBuilt(global.arena, global.nodes, r, mtrl.value, global.withUiData, global.isGamePath,
                      global.readShaderPackage, global.samplersAt, |old(global.arena)|)
    {
      if mtrl.None? || mtrl.value.resourceHandle.None? {
        return NoNode;
      }
      var key := MaterialKey(mtrl.value.resourceHandle.value);
      if key in global.nodes {
        return Built(global.nodes[key]);
      }
      r := BuildMaterialNode(mtrl.value);
    }

    /** The cache-miss half of `CreateNodeFromMaterial`. */
    method BuildMaterialNode(m: Material) returns (r: Outcome)
      requires global.Valid()
      requires m.resourceHandle.Some? && MaterialKey(m.resourceHandle.value) !in global.nodes
      modifies global
      ensures global.Valid()
      ensures Preserves(old(global.arena), global.arena) && FallbacksKept(old(global.arena), global.arena)
      ensures forall x | 0 <= x < |old(global.arena)| && x !in old(global.nodes).Values :: global.arena[x] == old(global.arena)[x]
      ensures CacheGrows(old(global.nodes), global.nodes, |old(global.arena)|)
      ensures MaterialBuilt(global.arena, global.nodes, r, m, global.withUiData, global.isGamePath,
                            global.readShaderPackage, global.samplersAt, |old(global.arena)|)
    {
      var key := MaterialKey(m.resourceHandle.value);
      ghost var arena0, nodes0 := global.arena, global.nodes;
      var node := CreateNode(Mtrl, m.address, m.resourceHandle.value.resource, []);
      ghost var arena1 := global.arena;
      NotCachedYet(nodes0, |arena0|);
      var input := AttachShaderPackage(node, m);
      ghost var arena2, nodes2 := global.arena, global.nodes;
      ghost var kids := AttachTextures(node, input, m.resourceHandle.value.textures);
      ghost var nodes3 := global.nodes;
      MaterialFrame(arena0, nodes0, node, m, arena1, arena2, nodes2, global.arena, nodes3, kids, input,
                    global.withUiData, global.isGamePath, global.readShaderPackage, global.samplersAt);
      var added := global.Add(key, node);
      if !added {
        return DuplicateKey(key);
      }
      MaterialShape(arena0, nodes0, node, m, arena1, arena2, nodes2, global.arena, nodes3, kids, input,
                    global.withUiData, global.isGamePath, global.readShaderPackage, global.samplersAt);
      MaterialNodeBuilt(global.arena, nodes3, global.nodes, node, m, arena2[node].children, kids, input,
                        global.withUiData, global.isGamePath, global.readShaderPackage, global.samplersAt);
      CacheGrowsAdd(nodes0, nodes3, key, node, |arena0|);
      return Built(node);
    }

    /** The shader-package step of `CreateNodeFromMaterial`: the package's node, named
        "Shader Package" with UI data, becomes the material's first child, and the sampler table
        and shader file the texture names are drawn from are read through it. */
    method AttachShaderPackage(node: NodeId, m: Material) returns (input: NamingInput)
      requires global.Valid() && m.resourceHandle.Some?
      requires node < |global.arena| && node !in global.nodes.Values && global.arena[node].children == []
      modifies global
      ensures global.Valid()
      ensures ShpkAttached(old(global.arena), old(global.nodes), global.arena, global.nodes, node, m, input,
                           global.withUiData, global.isGamePath, global.readShaderPackage, global.samplersAt)
    {
      var resource := m.resourceHandle.value;
      ghost var arena0, nodes0 := global.arena, global.nodes;
      var shpkNode := CreateNodeFromShpk(resource.shaderPackage, resource.shpkName);
      if shpkNode.None? {
        NoShpk(arena0, nodes0, node, m, global.withUiData, global.isGamePath, global.readShaderPackage, global.samplersAt);
        return NamingInput(m.textures, None, None);
      }
      var s := shpkNode.value;
      ghost var arena1, nodes1 := global.arena, global.nodes;
      ghost var shpkPath := ShpkGamePath(resource.shaderPackage, resource.shpkName, global.isGamePath).value;
      GotOrCreatedFetched(arena0, nodes0, arena1, nodes1, Key(shpkPath, resource.shaderPackage.value.resource.address),
                          NewNode(Shpk, resource.shaderPackage.value.shaderPackage, resource.shaderPackage.value.resource, shpkPath, global.isGamePath), s);
      if global.withUiData {
        global.SetName(s, "Shader Package");
      }
      ghost var arena2 := global.arena;
      global.AddChild(node, s);
      input := NamingInput(m.textures, ShpkSamplers(global.arena[s], global.withUiData, global.samplersAt),
                           ShpkFile(global.arena[s], global.withUiData, global.readShaderPackage));
      ShpkStep(arena0, nodes0, arena1, nodes1, arena2, global.arena, node, s, m, input, global.withUiData, global.isGamePath,
               global.readShaderPackage, global.samplersAt);
    }

    /** The texture loop of `CreateNodeFromMaterial`. */
    method AttachTextures(node: NodeId, input: NamingInput, slots: seq<TextureSlot>) returns (ghost kids: seq<NodeId>)
      requires global.Valid() && node < |global.arena| && node !in global.nodes.Values
      requires !global.withUiData ==> input.samplers.None?
      modifies global
      ensures global.Valid()
      ensures TexturesAttached(old(global.arena), old(global.nodes), node, old(global.arena)[node].children,
                               global.arena, global.nodes, kids, input, slots, global.withUiData, global.isGamePath, |slots|)
    {
      ghost var arena1, nodes1 := global.arena, global.nodes;
      ghost var head := global.arena[node].children;
      kids := [];
      var alreadyProcessedSamplerIds: set<uint32> := {};
      for i := 0 to |slots|
        invariant global.Valid()
        invariant TexturesAttached(arena1, nodes1, node, head, global.arena, global.nodes, kids, input, slots,
                                   global.withUiData, global.isGamePath, i)
        invariant alreadyProcessedSamplerIds == NamesIn(input, slots, global.isGamePath, i).visited
      {
        ghost var arenaA, nodesA := global.arena, global.nodes;
        var kid, visited := AttachTexture(node, input, slots[i], i, alreadyProcessedSamplerIds);
        TexturesAttachedStep(arena1, nodes1, node, head, arenaA, nodesA, global.arena, global.nodes, kids, kid, input, slots,
                             global.withUiData, global.isGamePath, i, alreadyProcessedSamplerIds, visited);
        kids := kids + (if kid.Some? then [kid.value] else []);
        alreadyProcessedSamplerIds := visited;
      }
    }

    /** One turn of the texture loop: the slot's node, named and copied when UI data is on,
        joins the material's children. */
    method AttachTexture(node: NodeId, input: NamingInput, slot: TextureSlot, i: nat, alreadyProcessedSamplerIds: set<uint32>)
      returns (kid: Option<NodeId>, visited: set<uint32>)
      requires global.Valid() && node < |global.arena| && node !in global.nodes.Values
      requires !global.withUiData ==> input.samplers.None?
      modifies global
      ensures global.Valid()
      ensures SlotAttached(old(global.arena), old(global.nodes), global.arena, global.nodes, node, kid, slot,
                           SlotNaming(input, slot, i, alreadyProcessedSamplerIds).name, global.withUiData, global.isGamePath)
      ensures visited == if kid.Some? then Consume(alreadyProcessedSamplerIds, SlotNaming(input, slot, i, alreadyProcessedSamplerIds))
                         else alreadyProcessedSamplerIds
    {
      ghost var arena0, nodes0 := global.arena, global.nodes;
      ghost var naming0 := SlotNaming(input, slot, i, alreadyProcessedSamplerIds);
      visited := alreadyProcessedSamplerIds;
      var texNode := CreateNodeFromTex(slot.handle, slot.path, slot.isDx11);
      assert SlotPath(slot, global.isGamePath) == TexGamePath(slot.handle, slot.path, slot.isDx11, global.isGamePath);
      if texNode.None? {
        NoTextureSlot(arena0, nodes0, node, slot, naming0.name, global.withUiData, global.isGamePath);
        return None, visited;
      }
      GotOrCreatedFetched(arena0, nodes0, global.arena, global.nodes, Key(SlotPath(slot, global.isGamePath).value, slot.handle.value.resource.address),
                          NewNode(Tex, slot.handle.value.texture, slot.handle.value.resource, SlotPath(slot, global.isGamePath).value, global.isGamePath),
                          texNode.value);
      var child;
      child, visited := AttachFetchedTexture(node, texNode.value, input, slot, i, alreadyProcessedSamplerIds, arena0, nodes0);
      kid := Some(child);
    }

    /** The rest of a texture-loop turn once the slot's node `t` is fetched: the node, or its
        named copy, becomes the material's next child. */
    method AttachFetchedTexture(node: NodeId, t: NodeId, input: NamingInput, slot: TextureSlot, i: nat,
                                alreadyProcessedSamplerIds: set<uint32>, ghost arena0: seq<ResourceNode>, ghost nodes0: map<Key, NodeId>)
      returns (child: NodeId, visited: set<uint32>)
      requires global.Valid() && node < |arena0| && node !in nodes0.Values
      requires !global.withUiData ==> input.samplers.None?
      requires SlotPath(slot, global.isGamePath).Some?
      requires Fetched(arena0, nodes0, global.arena, global.nodes,
                       Key(SlotPath(slot, global.isGamePath).value, slot.handle.value.resource.address), t)
      modifies global
      ensures global.Valid()
      ensures SlotAttached(arena0, nodes0, global.arena, global.nodes, node, Some(child), slot,
                           SlotNaming(input, slot, i, alreadyProcessedSamplerIds).name, global.withUiData, global.isGamePath)
      ensures visited == Consume(alreadyProcessedSamplerIds, SlotNaming(input, slot, i, alreadyProcessedSamplerIds))
    {
      ghost var naming0 := SlotNaming(input, slot, i, alreadyProcessedSamplerIds);
      ghost var arena1, nodes1 := global.arena, global.nodes;
      child, visited := t, alreadyProcessedSamplerIds;
      if global.withUiData {
        child, visited := NamedTextureCopy(t, input, slot, i, alreadyProcessedSamplerIds);
      } else {
        assert naming0.consumed.None?;
      }
      ghost var arena2 := global.arena;
      global.AddChild(node, child);
      TextureSlotAttached(arena0, nodes0, arena1, nodes1, arena2, global.arena, node, t, child, slot, naming0.name,
                          global.withUiData, global.isGamePath);
    }

    /** The UI-data branch of the texture loop: the slot's sampler id is looked up and consumed,
        and a copy of the texture node is given the resulting name. */
    method NamedTextureCopy(t: NodeId, input: NamingInput, slot: TextureSlot, i: nat, alreadyProcessedSamplerIds: set<uint32>)
      returns (child: NodeId, visited: set<uint32>)
      requires global.Valid() && t < |global.arena| && slot.handle.Some?
      modifies global
      ensures global.Valid() && global.nodes == old(global.nodes)
      ensures child == |old(global.arena)|
      ensures global.arena == old(global.arena) + [old(global.arena)[t].(name := Some(SlotNaming(input, slot, i, alreadyProcessedSamplerIds).name))]
      ensures visited == Consume(alreadyProcessedSamplerIds, SlotNaming(input, slot, i, alreadyProcessedSamplerIds))
    {
      var naming := NameTexture(input.table, input.samplers, input.file, slot.flags, slot.handle.value.resource.address, i,
                                alreadyProcessedSamplerIds);
      visited := alreadyProcessedSamplerIds;
      if naming.consumed.Some? {
        visited := alreadyProcessedSamplerIds + {naming.consumed.value};
      }
      child := global.Clone(t);
      global.SetName(child, naming.name);
    }

    /** `CreateNodeFromRenderModel`: the model's node (empty game path) with one child per
        material that yields a node; with UI data each such child is given "Material #i". */
    method CreateNodeFromRenderModel(mdl: Option<Model>) returns (r: Outcome)
      requires global.Valid()
      modifies global
      ensures global.Valid()
      ensures Preserves(old(global.arena), global.arena)
      ensures CacheGrows(old(global.nodes), global.nodes, |old(global.arena)|)
      ensures mdl.None? || mdl.value.resourceHandle.None? ==>
        r == NoNode && global.arena == old(global.arena) && global.nodes == old(global.nodes)
      ensures mdl.Some? && mdl.value.resourceHandle.Some? && Key([], mdl.value.resourceHandle.value.address) in old(global.nodes) ==>
        r == Built(old(global.nodes)[Key([], mdl.value.resourceHandle.value.address)])
        && global.arena == old(global.arena) && global.nodes == old(global.nodes)
      ensures mdl.Some? && mdl.value.resourceHandle.Some? && Key([], mdl.value.resourceHandle.value.address) !in old(global.nodes) ==>
        ModelBuilt(global.arena, global.nodes, r, mdl.value, global.withUiData, global.isGamePath, |old(global.arena)|)
    {
      if mdl.None? || mdl.value.resourceHandle.None? {
        return NoNode;
      }
      var key := Key([], mdl.value.resourceHandle.value.address);
      if key in global.nodes {
        return Built(global.nodes[key]);
      }
      r := BuildModelNode(mdl.value);
    }

    /** The cache-miss half of `CreateNodeFromRenderModel`. An `Add` failure met while building a
        material ends the build, as the exception does. */
    method BuildModelNode(mdl: Model) returns (r: Outcome)
      requires global.Valid()
      requires mdl.resourceHandle.Some? && Key([], mdl.resourceHandle.value.address) !in global.nodes
      modifies global
      ensures global.Valid()
      ensures Preserves(old(global.arena), global.arena)
      ensures CacheGrows(old(global.nodes), global.nodes, |old(global.arena)|)
      ensures ModelBuilt(global.arena, global.nodes, r, mdl, global.withUiData, global.isGamePath, |old(global.arena)|)
    {
      var key := Key([], mdl.resourceHandle.value.address);
      ghost var arena0, nodes0 := global.arena, global.nodes;
      var node := CreateNode(Mdl, mdl.address, mdl.resourceHandle.value, []);
      ghost var shape := NewNode(Mdl, mdl.address, mdl.resourceHandle.value, [], global.isGamePath);
      ModelStarted(arena0, nodes0, node, global.arena, mdl, global.withUiData, global.isGamePath);
      var failure := AttachMaterials(node, mdl, arena0, nodes0, shape);
      if failure.DuplicateKey? {
        return failure;
      }
      ghost var nodesB := global.nodes;
      var added := global.Add(key, node);
      if !added {
        ModelDuplicate(arena0, nodes0, node, shape, global.arena, global.nodes, mdl, global.withUiData, global.isGamePath);
        return DuplicateKey(key);
      }
      ModelFinished(arena0, nodes0, node, global.arena, nodesB, global.nodes, mdl, global.withUiData, global.isGamePath);
      return Built(node);
    }

    /** The material loop of `CreateNodeFromRenderModel`: every material slot in turn, stopping
        at the first `Add` failure. */
    method AttachMaterials(node: NodeId, mdl: Model, ghost arena0: seq<ResourceNode>, ghost nodes0: map<Key, NodeId>,
                           ghost shape: ResourceNode) returns (failure: Outcome)
      requires global.Valid() && mdl.resourceHandle.Some?
      requires ModelAttached(arena0, nodes0, node, shape, global.arena, global.nodes, mdl.materials, global.withUiData, 0)
      modifies global
      ensures global.Valid()
      ensures failure.NoNode? || failure.DuplicateKey?
      ensures failure.NoNode? ==>
        ModelAttached(arena0, nodes0, node, shape, global.arena, global.nodes, mdl.materials, global.withUiData, |mdl.materials|)
      ensures failure.DuplicateKey? ==>
        && Preserves(arena0, global.arena) && CacheGrows(nodes0, global.nodes, |arena0|)
        && ModelBuilt(global.arena, global.nodes, failure, mdl, global.withUiData, global.isGamePath, |arena0|)
    {
      for i := 0 to |mdl.materials|
        invariant global.Valid()
        invariant ModelAttached(arena0, nodes0, node, shape, global.arena, global.nodes, mdl.materials, global.withUiData, i)
      {
        ghost var arenaA, nodesA := global.arena, global.nodes;
        var mtrlNode := AttachMaterial(node, mdl.materials[i], i);
        if mtrlNode.DuplicateKey? {
          ModelAborted(arena0, nodes0, node, shape, arenaA, nodesA, global.arena, global.nodes, mdl, mtrlNode, i,
                       global.withUiData, global.isGamePath);
          return mtrlNode;
        }
        ModelAttachedStep(arena0, nodes0, node, shape, arenaA, nodesA, global.arena, global.nodes, mdl.materials,
                          global.withUiData, i, mtrlNode);
      }
      return NoNode;
    }

    /** One turn of the material loop: the material's node, with its fallback name when UI data
        is on, joins the model's children. */
    method AttachMaterial(node: NodeId, mtrl: Option<Material>, i: nat) returns (r: Outcome)
      requires global.Valid() && node < |global.arena| && node !in global.nodes.Values
      modifies global
      ensures global.Valid()
      ensures MaterialAttached(old(global.arena), old(global.nodes), global.arena, global.nodes, node, r, mtrl, i, global.withUiData)
    {
      ghost var arena0, nodes0 := global.arena, global.nodes;
      r := CreateNodeFromMaterial(mtrl);
      ghost var arena1, nodes1 := global.arena, global.nodes;
      ghost var arena2 := global.arena;
      if r.Built? {
        if global.withUiData {
          global.SetFallbackName(r.id, "Material #" + Decimal(i));
        }
        arena2 := global.arena;
        global.AddChild(node, r.id);
      }
      MaterialAttachedFrom(arena0, nodes0, arena1, nodes1, arena2, global.arena, node, r, mtrl, i, global.withUiData);
    }

    /** `CreateParameterNodeFromPartialSkeleton`: the cached or new parameter node, with
        "Skeleton Parameters" as its fallback name when it is new and UI data is on. */
    method CreateParameterNodeFromPartialSkeleton(sklb: Option<PartialSkeleton>) returns (r: Option<NodeId>)
      requires global.Valid()
      modifies global
      ensures global.Valid()
      ensures sklb.None? || sklb.value.parameterHandle.None? ==>
        r.None? && global.arena == old(global.arena) && global.nodes == old(global.nodes)
      ensures sklb.Some? && sklb.value.parameterHandle.Some? ==>
        r.Some? && GotOrCreated(old(global.arena), old(global.nodes), global.arena, global.nodes,
          Key([], sklb.value.parameterHandle.value.address),
          SkpNode(sklb.value, sklb.value.parameterHandle.value, global.withUiData, global.isGamePath), r.value)
    {
      if sklb.None? || sklb.value.parameterHandle.None? {
        return None;
      }
      var handle := sklb.value.parameterHandle.value;
      var key := Key([], handle.address);
      if key in global.nodes {
        return Some(global.nodes[key]);
      }
      ghost var arena0 := global.arena;
      var node := CreateNode(Skp, sklb.value.address, handle, []);
      if global.withUiData {
        global.SetFallbackName(node, "Skeleton Parameters");
        AppendThenSet(arena0, NewNode(Skp, sklb.value.address, handle, [], global.isGamePath),
                      SkpNode(sklb.value, handle, global.withUiData, global.isGamePath));
      }
      assert global.arena == arena0 + [SkpNode(sklb.value, handle, global.withUiData, global.isGamePath)];
      var added := global.Add(key, node);
      return Some(node);
    }

    /** `CreateNodeFromPartialSkeleton`: the skeleton's node (empty game path) with its parameter
        node as only child. */
    method CreateNodeFromPartialSkeleton(sklb: Option<PartialSkeleton>) returns (r: Outcome)
      requires global.Valid()
      modifies global
      ensures global.Valid()
      ensures Preserves(old(global.arena), global.arena)
      ensures CacheGrows(old(global.nodes), global.nodes, |old(global.arena)|)
      ensures sklb.None? || sklb.value.skeletonHandle.None? ==>
        r == NoNode && global.arena == old(global.arena) && global.nodes == old(global.nodes)
      ensures sklb.Some? && sklb.value.skeletonHandle.Some? && Key([], sklb.value.skeletonHandle.value.address) in old(global.nodes) ==>
        r == Built(old(global.nodes)[Key([], sklb.value.skeletonHandle.value.address)])
        && global.arena == old(global.arena) && global.nodes == old(global.nodes)
      ensures sklb.Some? && sklb.value.skeletonHandle.Some? && Key([], sklb.value.skeletonHandle.value.address) !in old(global.nodes) ==>
        SkeletonBuilt(global.arena, global.nodes, r, sklb.value, global.isGamePath, |old(global.arena)|)
    {
      if sklb.None? || sklb.value.skeletonHandle.None? {
        return NoNode;
      }
      var key := Key([], sklb.value.skeletonHandle.value.address);
      if key in global.nodes {
        return Built(global.nodes[key]);
      }
      r := BuildSkeletonNode(sklb.value);
    }

    /** The cache-miss half of `CreateNodeFromPartialSkeleton`. */
    method BuildSkeletonNode(sklb: PartialSkeleton) returns (r: Outcome)
      requires global.Valid()
      requires sklb.skeletonHandle.Some? && Key([], sklb.skeletonHandle.value.address) !in global.nodes
      modifies global
      ensures global.Valid()
      ensures Preserves(old(global.arena), global.arena)
      ensures CacheGrows(old(global.nodes), global.nodes, |old(global.arena)|)
      ensures SkeletonBuilt(global.arena, global.nodes, r, sklb, global.isGamePath, |old(global.arena)|)
    {
      var handle := sklb.skeletonHandle.value;
      var key := Key([], handle.address);
      ghost var arena0, nodes0 := global.arena, global.nodes;
      var node := CreateNode(Sklb, sklb.address, handle, []);
      ghost var arena1 := global.arena;
      var skpNode := CreateParameterNodeFromPartialSkeleton(Some(sklb));
      ghost var arena2, nodes2 := global.arena, global.nodes;
      if skpNode.None? {
        var added := global.Add(key, node);
        SkeletonWithoutParameter(arena0, nodes0, arena1, global.nodes, node, sklb, global.isGamePath);
        return Built(node);
      }
      ghost var pkey := Key([], sklb.parameterHandle.value.address);
      GotOrCreatedFetched(arena1, nodes0, arena2, nodes2, pkey,
                          SkpNode(sklb, sklb.parameterHandle.value, global.withUiData, global.isGamePath), skpNode.value);
      global.AddChild(node, skpNode.value);
      SkeletonWithParameterFramed(arena0, nodes0, arena1, arena2, nodes2, global.arena,
                                  NewNode(Sklb, sklb.address, handle, [], global.isGamePath), node, pkey, skpNode.value);
      AppendedChild(arena0, nodes0, arena1, arena2, nodes2, global.arena,
                    NewNode(Sklb, sklb.address, handle, [], global.isGamePath), node, pkey, skpNode.value);
      OnlyKeyAdded(nodes0, nodes2, pkey, key);
      SkeletonWithParameter(global.arena, nodes2, node, skpNode.value, sklb, global.isGamePath);
      var added := global.Add(key, node);
      if !added {
        SkeletonDuplicate(arena0, nodes0, global.arena, global.nodes, node, skpNode.value, sklb, global.isGamePath);
        return DuplicateKey(key);
      }
      SkeletonAdded(arena0, nodes0, global.arena, nodes2, global.nodes, node, skpNode.value, sklb, global.isGamePath);
      return Built(node);
    }
  }
}
