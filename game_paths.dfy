/** Byte-level path rules of the resolver: the DX11 texture marker and the file name of a
    resource handle. */
module GamePaths {
  import opened Wrappers
  import opened ByteStrings

  predicate HasSlash(path: seq<byte>) {
    exists i | 0 <= i < |path| :: path[i] == Slash
  }

  /** Everything up to and including the last '/'. */
  function Directory(path: seq<byte>): (d: seq<byte>)
    requires HasSlash(path)
    ensures 0 < |d| <= |path| && d[|d| - 1] == Slash && d == path[..|d|]
  {
    path[..LastIndexOf(path, Slash) + 1]
  }

  /** Everything after the last '/'. */
  function FileName(path: seq<byte>): (f: seq<byte>)
    requires HasSlash(path)
    ensures Directory(path) + f == path
    ensures forall i | 0 <= i < |f| :: f[i] != Slash
  {
    path[LastIndexOf(path, Slash) + 1..]
  }

  /** The last '/' of a directory followed by a slash-free name is the directory's own. */
  lemma LastSlashOfJoin(dir: seq<byte>, name: seq<byte>)
    requires |dir| > 0 && dir[|dir| - 1] == Slash
    requires forall i | 0 <= i < |name| :: name[i] != Slash
    ensures HasSlash(dir + name)
    ensures Directory(dir + name) == dir && FileName(dir + name) == name
  {
    var p := dir + name;
    assert p[|dir| - 1] == Slash;
    assert forall i | |dir| <= i < |p| :: p[i] == name[i - |dir|];
  }

  /** `LastIndexOf` finds a '/' exactly when there is one, and splits the path there. */
  lemma LastSlashSplits(path: seq<byte>)
    ensures LastIndexOf(path, Slash) >= 0 <==> HasSlash(path)
    ensures HasSlash(path) ==> Directory(path) == path[..LastIndexOf(path, Slash) + 1]
    ensures HasSlash(path) ==> FileName(path) == path[LastIndexOf(path, Slash) + 1..]
  {
    var k := LastIndexOf(path, Slash);
    if k >= 0 {
      assert path[k] == Slash;
    }
  }

  const Marker: seq<byte> := [Dash, Dash]

  /** The game path `CreateNodeFromTex` uses for a texture flagged DX11: none when the path has
      no '/' or fewer than two bytes after the last one; otherwise the same directory with a
      file name that starts with "--", inserted unless it is already there. */
  function Dx11TexturePath(path: seq<byte>): (r: Option<seq<byte>>)
    ensures r.Some? <==> HasSlash(path) && |FileName(path)| >= 2
    ensures r.Some? ==> HasSlash(r.value) && Directory(r.value) == Directory(path)
    ensures r.Some? ==>
      FileName(r.value) == (if FileName(path)[..2] == Marker then FileName(path) else Marker + FileName(path))
  {
    var sep := LastIndexOf(path, Slash);
    if sep == -1 || sep > |path| - 3 then
      ShortFileName(path);
      None
    else if path[sep + 1] != Dash || path[sep + 2] != Dash then
      MarkerInserted(path);
      Some(path[..sep + 1] + Marker + path[sep + 1..])
    else
      MarkerPresent(path);
      Some(path)
  }

  /** No '/', or fewer than two bytes after the last one. */
  lemma ShortFileName(path: seq<byte>)
    requires LastIndexOf(path, Slash) == -1 || LastIndexOf(path, Slash) > |path| - 3
    ensures !(HasSlash(path) && |FileName(path)| >= 2)
  {
    LastSlashSplits(path);
  }

  /** A file name of two bytes or more that does not start with the marker gets it inserted. */
  lemma MarkerInserted(path: seq<byte>)
    requires 0 <= LastIndexOf(path, Slash) <= |path| - 3
    requires path[LastIndexOf(path, Slash) + 1] != Dash || path[LastIndexOf(path, Slash) + 2] != Dash
    ensures HasSlash(path) && |FileName(path)| >= 2 && FileName(path)[..2] != Marker
    ensures var r := path[..LastIndexOf(path, Slash) + 1] + Marker + path[LastIndexOf(path, Slash) + 1..];
      HasSlash(r) && Directory(r) == Directory(path) && FileName(r) == Marker + FileName(path)
  {
    var k := LastIndexOf(path, Slash);
    LastSlashSplits(path);
    var name := FileName(path);
    assert name[0] == path[k + 1] && name[1] == path[k + 2];
    assert name[..2] == [name[0], name[1]];
    MarkerJoin(Directory(path), name);
  }

  /** Putting the marker between a directory and a slash-free name makes it the name's start. */
  lemma MarkerJoin(dir: seq<byte>, name: seq<byte>)
    requires |dir| > 0 && dir[|dir| - 1] == Slash
    requires forall i | 0 <= i < |name| :: name[i] != Slash
    ensures HasSlash(dir + Marker + name)
    ensures Directory(dir + Marker + name) == dir && FileName(dir + Marker + name) == Marker + name
  {
    assert dir + Marker + name == dir + (Marker + name);
    LastSlashOfJoin(dir, Marker + name);
  }

  /** A file name that already starts with the marker is kept. */
  lemma MarkerPresent(path: seq<byte>)
    requires 0 <= LastIndexOf(path, Slash) <= |path| - 3
    requires path[LastIndexOf(path, Slash) + 1] == Dash && path[LastIndexOf(path, Slash) + 2] == Dash
    ensures HasSlash(path) && |FileName(path)| >= 2 && FileName(path)[..2] == Marker
  {
    LastSlashSplits(path);
    assert FileName(path)[..2] == [path[LastIndexOf(path, Slash) + 1], path[LastIndexOf(path, Slash) + 2]];
  }

  /** The rewrite is idempotent: a marked path is left as it is. */
  lemma Dx11TexturePathIdempotent(path: seq<byte>)
    requires Dx11TexturePath(path).Some?
    ensures Dx11TexturePath(Dx11TexturePath(path).value) == Dx11TexturePath(path)
  {
    var r := Dx11TexturePath(path).value;
    assert FileName(r)[..2] == Marker;
    assert r == Directory(r) + FileName(r);
  }

  /** The rewrite only ever inserts the two marker bytes: the result is the input, or the
      input two bytes longer with the marker right after the last '/'. */
  lemma Dx11TexturePathInserts(path: seq<byte>)
    requires Dx11TexturePath(path).Some?
    ensures var r := Dx11TexturePath(path).value;
      r == path || (|r| == |path| + 2 && r == Directory(path) + Marker + FileName(path))
  {
    var r := Dx11TexturePath(path).value;
    assert r == Directory(r) + FileName(r);
    assert path == Directory(path) + FileName(path);
  }

  /** `GetResourceHandlePath`: the file name of a handle (`None` for a null handle) with a
      leading `|...|` category prefix removed; empty when the prefix is not closed. */
  function ResourceHandlePath(fileName: Option<seq<byte>>): (r: seq<byte>)
    ensures fileName.None? ==> r == []
    ensures fileName.Some? ==> |r| <= |fileName.value| && r == fileName.value[|fileName.value| - |r|..]
    ensures fileName.Some? && (fileName.value == [] || fileName.value[0] != Pipe) ==> r == fileName.value
  {
    if fileName.None? then []
    else
      var name := fileName.value;
      if name == [] then []
      else if name[0] == Pipe then
        var pos := IndexOf(name, Pipe, 1);
        if pos < 0 then [] else name[pos + 1..]
      else name
  }

  /** A name of the form `|category|path`, with no '|' inside the category, resolves to `path`. */
  lemma ResourceHandlePathStripsCategory(category: seq<byte>, path: seq<byte>)
    requires forall i | 0 <= i < |category| :: category[i] != Pipe
    ensures ResourceHandlePath(Some([Pipe] + category + [Pipe] + path)) == path
  {
    var name := [Pipe] + category + [Pipe] + path;
    var pos := IndexOf(name, Pipe, 1);
    assert name[|category| + 1] == Pipe;
    assert forall i | 1 <= i <= |category| :: name[i] == category[i - 1];
    assert pos == |category| + 1;
    assert name[pos + 1..] == path;
  }

  /** An opening '|' with no closing one yields the empty path. */
  lemma ResourceHandlePathUnclosed(rest: seq<byte>)
    requires forall i | 0 <= i < |rest| :: rest[i] != Pipe
    ensures ResourceHandlePath(Some([Pipe] + rest)) == []
  {
    var name := [Pipe] + rest;
    assert forall i | 1 <= i < |name| :: name[i] == rest[i - 1];
  }
}
