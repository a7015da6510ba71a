/** The path matcher: decides, with three-valued logic, whether a game path belongs to the
    equipment (or monster skeleton) being resolved, and filters a list of paths by it,
    keeping every path it cannot decide. */
module PathMatcher {
  import opened Wrappers
  import opened Formatting
  import opened Host

  /** What the matcher reads from the resolve context: its equipment and the global skeleton id. */
  datatype MatchContext = MatchContext(equipment: CharacterArmor, skeleton: int)

  predicate NoSlash(s: string) {
    forall i | 0 <= i < |s| :: s[i] != '/'
  }

  predicate IsSegment(s: string) {
    s != [] && NoSlash(s)
  }

  function SplitFrom(s: string, current: string): (r: seq<string>)
    requires NoSlash(current)
    ensures forall i | 0 <= i < |r| :: IsSegment(r[i])
  {
    if s == [] then (if current == [] then [] else [current])
    else if s[0] == '/' then
      (if current == [] then SplitFrom(s[1..], []) else [current] + SplitFrom(s[1..], []))
    else SplitFrom(s[1..], current + [s[0]])
  }

  /** `Split('/', StringSplitOptions.RemoveEmptyEntries)`: the non-empty runs between slashes. */
  function Split(s: string): (r: seq<string>)
    ensures forall i | 0 <= i < |r| :: IsSegment(r[i])
  {
    SplitFrom(s, [])
  }

  /** Parts joined by single slashes; an empty part makes two slashes meet, or a slash lead or
      trail. */
  function Join(segments: seq<string>): string
  {
    if segments == [] then []
    else if |segments| == 1 then segments[0]
    else segments[0] + "/" + Join(segments[1..])
  }

  lemma {:induction false} SplitFromSegment(t: string, rest: string, current: string)
    requires NoSlash(current) && NoSlash(t)
    ensures SplitFrom(t + rest, current) == SplitFrom(rest, current + t)
  {
    if t != [] {
      assert (t + rest)[1..] == t[1..] + rest;
      assert current + [t[0]] + t[1..] == current + t;
      SplitFromSegment(t[1..], rest, current + [t[0]]);
    } else {
      assert t + rest == rest && current + t == current;
    }
  }

  /** Splitting undoes joining: a path written as slash-separated segments splits back into them. */
  lemma {:induction false} SplitJoin(segments: seq<string>)
    requires forall i | 0 <= i < |segments| :: IsSegment(segments[i])
    ensures Split(Join(segments)) == segments
  {
    if |segments| == 1 {
      SplitFromSegment(segments[0], [], []);
      assert segments[0] + [] == segments[0];
    } else if |segments| > 1 {
      var rest := "/" + Join(segments[1..]);
      assert Join(segments) == segments[0] + rest;
      SplitFromSegment(segments[0], rest, []);
      assert [] + segments[0] == segments[0];
      assert rest[1..] == Join(segments[1..]);
      SplitJoin(segments[1..]);
    }
  }

  /** The non-empty parts, in order. */
  function NonEmpty(parts: seq<string>): seq<string>
  {
    if parts == [] then [] else (if parts[0] == [] then [] else [parts[0]]) + NonEmpty(parts[1..])
  }

  /** `RemoveEmptyEntries` at work: splitting slash-joined parts gives back the non-empty ones,
      so doubled, leading and trailing slashes are skipped. */
  lemma {:induction false} SplitDropsEmpty(parts: seq<string>)
    requires forall i | 0 <= i < |parts| :: NoSlash(parts[i])
    ensures Split(Join(parts)) == NonEmpty(parts)
  {
    if |parts| == 1 {
      SplitFromSegment(parts[0], [], []);
      assert parts[0] + [] == parts[0] && [] + parts[0] == parts[0];
      assert NonEmpty(parts) == (if parts[0] == [] then [] else [parts[0]]) + NonEmpty([]);
    } else if |parts| > 1 {
      var rest := "/" + Join(parts[1..]);
      assert Join(parts) == parts[0] + rest;
      SplitFromSegment(parts[0], rest, []);
      assert [] + parts[0] == parts[0];
      assert rest[1..] == Join(parts[1..]);
      SplitDropsEmpty(parts[1..]);
    }
  }

  /** `SafeGet`: the element at a position, or `None` (C#'s null) past the end. */
  function SafeGet(path: seq<string>, index: nat): (r: Option<string>)
    ensures r.Some? <==> index < |path|
    ensures r.Some? ==> r.value == path[index]
  {
    if index < |path| then Some(path[index]) else None
  }

  /** `IsMatchEquipment`: the segments after `chara/<kind>/` match when they start with this
      equipment's directory and continue `material/v<variant>`; another directory is no match;
      the right directory followed by anything but `material` is undecided. */
  function IsMatchEquipment(path: seq<string>, equipmentDir: string, variantId: nat): Option<bool>
  {
    if SafeGet(path, 0) == Some(equipmentDir) then
      if SafeGet(path, 1) == Some("material") then Some(SafeGet(path, 2) == Some("v" + D4(variantId)))
      else None
    else Some(false)
  }

  /** `IsMatch`: classifies a split path as belonging (`Some(true)`), not belonging
      (`Some(false)`) or undecided (`None`). */
  function IsMatch(path: seq<string>, ctx: MatchContext): Option<bool>
  {
    if SafeGet(path, 0) != Some("chara") then None
    else
      var kind := SafeGet(path, 1);
      if kind == Some("accessory") then IsMatchEquipment(path[2..], "a" + D4(ctx.equipment.setId), ctx.equipment.variantId)
      else if kind == Some("equipment") then IsMatchEquipment(path[2..], "e" + D4(ctx.equipment.setId), ctx.equipment.variantId)
      else if kind == Some("monster") then Some(SafeGet(path, 2) == Some("m" + D4(ctx.skeleton)))
      else if kind == Some("weapon") then IsMatchEquipment(path[2..], "w" + D4(ctx.equipment.setId), ctx.equipment.variantId)
      else None
  }

  /** A path is kept unless it is classified as not belonging ("in doubt, keep the paths"). */
  predicate Keep(path: string, ctx: MatchContext) {
    IsMatch(Split(path), ctx).GetOr(true)
  }

  /** `Keep` for one resolve context, as a predicate on paths. */
  function KeepIn(ctx: MatchContext): string -> bool {
    p => Keep(p, ctx)
  }

  /** The positions below `n` of the paths that `keep` accepts, in increasing order. */
  function KeptIndices(paths: seq<string>, n: nat, keep: string -> bool): (r: seq<nat>)
    requires n <= |paths|
    ensures forall j, k | 0 <= j < k < |r| :: r[j] < r[k]
    ensures forall j | 0 <= j < |r| :: r[j] < n && keep(paths[r[j]])
    ensures forall i | 0 <= i < n && keep(paths[i]) :: i in r
  {
    if n == 0 then []
    else KeptIndices(paths, n - 1, keep) + (if keep(paths[n - 1]) then [n - 1] else [])
  }

  /** The paths among the first `n` that `keep` accepts, in order. */
  function Filtered(paths: seq<string>, n: nat, keep: string -> bool): seq<string>
    requires n <= |paths|
  {
    if n == 0 then []
    else Filtered(paths, n - 1, keep) + (if keep(paths[n - 1]) then [paths[n - 1]] else [])
  }

  /** The accepted paths among the first `n` are exactly the paths at the accepted positions,
      in order. */
  lemma {:induction false} FilteredAtKeptIndices(paths: seq<string>, n: nat, keep: string -> bool)
    requires n <= |paths|
    ensures |Filtered(paths, n, keep)| == |KeptIndices(paths, n, keep)| <= n
    ensures forall j | 0 <= j < |Filtered(paths, n, keep)| ::
      Filtered(paths, n, keep)[j] == paths[KeptIndices(paths, n, keep)[j]]
  {
    if n > 0 {
      FilteredAtKeptIndices(paths, n - 1, keep);
      var r0, k0 := Filtered(paths, n - 1, keep), KeptIndices(paths, n - 1, keep);
      var r, k := Filtered(paths, n, keep), KeptIndices(paths, n, keep);
      if keep(paths[n - 1]) {
        assert r == r0 + [paths[n - 1]];
        assert k == k0 + [n - 1];
        forall j | 0 <= j < |r|
          ensures r[j] == paths[k[j]]
        {
          if j < |r0| {
            assert r[j] == r0[j] && k[j] == k0[j];
          }
        }
      } else {
        assert r == r0 && k == k0;
      }
    }
  }

  /** `FilterGamePaths`: the paths that are not ruled out, in their original order. */
  method FilterGamePaths(gamePaths: seq<string>, ctx: MatchContext) returns (filtered: seq<string>)
    ensures filtered == Filtered(gamePaths, |gamePaths|, KeepIn(ctx))
    ensures |filtered| <= |gamePaths|
    ensures forall p | p in gamePaths :: p in filtered <==> Keep(p, ctx)
  {
    filtered := [];
    for i := 0 to |gamePaths|
      invariant filtered == Filtered(gamePaths, i, KeepIn(ctx))
    {
      var path := gamePaths[i];
      if IsMatch(Split(path), ctx).GetOr(true) {
        filtered := filtered + [path];
      }
    }
    FilteredAtKeptIndices(gamePaths, |gamePaths|, KeepIn(ctx));
    FilteredMembers(gamePaths, KeepIn(ctx));
  }

  /** A path appears in the filtered list exactly when `keep` accepts it. */
  lemma FilteredMembers(paths: seq<string>, keep: string -> bool)
    ensures forall p | p in paths :: p in Filtered(paths, |paths|, keep) <==> keep(p)
  {
    var r, kept := Filtered(paths, |paths|, keep), KeptIndices(paths, |paths|, keep);
    FilteredAtKeptIndices(paths, |paths|, keep);
    forall p | p in paths
      ensures p in r <==> keep(p)
    {
      if keep(p) {
        var i :| 0 <= i < |paths| && paths[i] == p;
        var j :| 0 <= j < |kept| && kept[j] == i;
        assert r[j] == p;
      }
      if p in r {
        var j :| 0 <= j < |r| && r[j] == p;
        assert keep(paths[kept[j]]);
      }
    }
  }

  /** The directory segment of equipment `setId` under `chara/<kind>/`. */
  function EquipmentDir(kind: string, setId: nat): string
    requires kind in {"accessory", "equipment", "weapon"}
  {
    (if kind == "accessory" then "a" else if kind == "equipment" then "e" else "w") + D4(setId)
  }

  /** `IsMatchEquipment`'s three answers: a match exactly for the directory followed by
      `material/v<variant>`; undecided exactly for the directory followed by anything else or
      nothing; no match whenever the first segment is not the directory. */
  lemma IsMatchEquipmentCases(path: seq<string>, equipmentDir: string, variantId: nat)
    ensures IsMatchEquipment(path, equipmentDir, variantId) == Some(true) <==>
      |path| >= 3 && path[0] == equipmentDir && path[1] == "material" && path[2] == "v" + D4(variantId)
    ensures IsMatchEquipment(path, equipmentDir, variantId).None? <==>
      |path| >= 1 && path[0] == equipmentDir && (|path| == 1 || path[1] != "material")
  {
  }

  /** Only the four known kinds are ever decided, and a path belongs only when it names the own
      monster skeleton, or the own set's directory followed by the own variant's material folder. */
  lemma IsMatchTrueOnlyForOwn(path: seq<string>, ctx: MatchContext)
    ensures IsMatch(path, ctx).Some? ==>
      |path| >= 2 && path[0] == "chara" && path[1] in {"accessory", "equipment", "monster", "weapon"}
    ensures IsMatch(path, ctx) == Some(true) ==>
      |path| >= 3 &&
      (if path[1] == "monster" then path[2] == "m" + D4(ctx.skeleton)
       else path[2] == EquipmentDir(path[1], ctx.equipment.setId) && |path| >= 5
            && path[3] == "material" && path[4] == "v" + D4(ctx.equipment.variantId))
  {
    if IsMatch(path, ctx) == Some(true) && path[1] != "monster" {
      IsMatchEquipmentCases(path[2..], EquipmentDir(path[1], ctx.equipment.setId), ctx.equipment.variantId);
    }
  }

  /** A material of the resolved equipment's own set and variant belongs to it. */
  lemma OwnMaterialMatches(kind: string, ctx: MatchContext, rest: seq<string>)
    requires kind in {"accessory", "equipment", "weapon"}
    ensures IsMatch(["chara", kind, EquipmentDir(kind, ctx.equipment.setId), "material",
                     "v" + D4(ctx.equipment.variantId)] + rest, ctx) == Some(true)
  {
  }

  /** Any path under another set's directory does not belong. */
  lemma OtherSetDoesNotMatch(kind: string, setId: uint16, ctx: MatchContext, rest: seq<string>)
    requires kind in {"accessory", "equipment", "weapon"}
    requires setId != ctx.equipment.setId
    ensures IsMatch(["chara", kind, EquipmentDir(kind, setId)] + rest, ctx) == Some(false)
  {
    var path := ["chara", kind, EquipmentDir(kind, setId)] + rest;
    var own := EquipmentDir(kind, ctx.equipment.setId);
    IsMatchOnEquipment(kind, path, ctx);
    EquipmentDirInjective(kind, setId, ctx.equipment.setId);
    assert path[2..][0] == EquipmentDir(kind, setId) != own;
    IsMatchEquipmentCases(path[2..], own, ctx.equipment.variantId);
  }

  /** Under `chara/<kind>/` for an equipment kind, the answer is `IsMatchEquipment`'s on the
      rest of the path with the own set's directory. */
  lemma IsMatchOnEquipment(kind: string, path: seq<string>, ctx: MatchContext)
    requires kind in {"accessory", "equipment", "weapon"}
    requires |path| >= 2 && path[0] == "chara" && path[1] == kind
    ensures IsMatch(path, ctx) ==
      IsMatchEquipment(path[2..], EquipmentDir(kind, ctx.equipment.setId), ctx.equipment.variantId)
  {
  }

  /** Different sets of one kind have different directories. */
  lemma EquipmentDirInjective(kind: string, a: nat, b: nat)
    requires kind in {"accessory", "equipment", "weapon"}
    ensures EquipmentDir(kind, a) == EquipmentDir(kind, b) ==> a == b
  {
    var da, db := EquipmentDir(kind, a), EquipmentDir(kind, b);
    if da == db {
      assert da[1..] == D4(a) && db[1..] == D4(b);
      D4Injective(a, b);
    }
  }

  /** A material of the right set but another variant does not belong. */
  lemma OtherVariantDoesNotMatch(kind: string, variantId: uint8, ctx: MatchContext, rest: seq<string>)
    requires kind in {"accessory", "equipment", "weapon"}
    requires variantId != ctx.equipment.variantId
    ensures IsMatch(["chara", kind, EquipmentDir(kind, ctx.equipment.setId), "material",
                     "v" + D4(variantId)] + rest, ctx) == Some(false)
  {
    var dir := EquipmentDir(kind, ctx.equipment.setId);
    var path := ["chara", kind, dir, "material", "v" + D4(variantId)] + rest;
    var tag := "v" + D4(variantId);
    var own := "v" + D4(ctx.equipment.variantId);
    if tag == own {
      assert tag[1..] == D4(variantId) && own[1..] == D4(ctx.equipment.variantId);
      D4Injective(variantId, ctx.equipment.variantId);
    }
    IsMatchOnEquipment(kind, path, ctx);
    assert path[2..][0] == dir && path[2..][1] == "material" && path[2..][2] == tag;
    IsMatchEquipmentCases(path[2..], dir, ctx.equipment.variantId);
  }

  /** A monster path belongs exactly when its third segment names the resolved skeleton. */
  lemma MonsterMatchesOnlyItsSkeleton(skeleton: int, ctx: MatchContext, rest: seq<string>)
    ensures IsMatch(["chara", "monster", "m" + D4(skeleton)] + rest, ctx) == Some(skeleton == ctx.skeleton)
  {
    var tag, own := "m" + D4(skeleton), "m" + D4(ctx.skeleton);
    if tag == own {
      assert tag[1..] == D4(skeleton) && own[1..] == D4(ctx.skeleton);
      D4Injective(skeleton, ctx.skeleton);
    }
  }

  /** Paths outside `chara/{accessory,equipment,monster,weapon}` are undecided, and so are kept. */
  lemma UndecidedPathsAreKept(path: seq<string>, ctx: MatchContext)
    requires forall i | 0 <= i < |path| :: IsSegment(path[i])
    requires |path| < 2 || path[0] != "chara" || path[1] !in {"accessory", "equipment", "monster", "weapon"}
    ensures IsMatch(path, ctx) == None
    ensures Keep(Join(path), ctx)
  {
    UndecidedIsNone(path, ctx);
    SplitJoin(path);
    assert Split(Join(path)) == path;
  }

  lemma UndecidedIsNone(path: seq<string>, ctx: MatchContext)
    requires |path| < 2 || path[0] != "chara" || path[1] !in {"accessory", "equipment", "monster", "weapon"}
    ensures IsMatch(path, ctx) == None
  {
    if |path| >= 2 && path[0] == "chara" {
      assert SafeGet(path, 1) == Some(path[1]);
    }
  }

  /** A path that stops right after `chara/<kind>` for one of the four known kinds is ruled
      out rather than undecided: the missing third segment is compared as null with the
      expected directory (or monster tag) and differs from it. */
  lemma TruncatedKnownPathsAreRuledOut(kind: string, ctx: MatchContext)
    requires kind in {"accessory", "equipment", "monster", "weapon"}
    ensures IsMatch(["chara", kind], ctx) == Some(false)
    ensures !Keep(Join(["chara", kind]), ctx)
  {
    var path := ["chara", kind];
    assert path[2..] == [];
    SplitJoin(path);
  }

  /** Files of the equipment's own directory outside `material/` are undecided, and so are kept. */
  lemma OwnNonMaterialFilesAreKept(kind: string, ctx: MatchContext, rest: seq<string>)
    requires kind in {"accessory", "equipment", "weapon"}
    requires rest == [] || rest[0] != "material"
    ensures IsMatch(["chara", kind, EquipmentDir(kind, ctx.equipment.setId)] + rest, ctx) == None
  {
    var path := ["chara", kind, EquipmentDir(kind, ctx.equipment.setId)] + rest;
    assert path[2..] == [EquipmentDir(kind, ctx.equipment.setId)] + rest;
  }
}
