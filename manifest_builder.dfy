/** The `emit` callback of ClientBuildManifestPlugin, step by step: the
    `assetMap` object it fills in place, and the callback that drives it. Each
    step is proved to leave the state the corresponding function of module
    ManifestSpec describes. */
module ClientBuildManifest {
  import opened Wrappers
  import opened Strings
  import opened Lists
  import opened OrderedDict
  import opened Graph
  import opened ManifestSpec

  /** `assetMap`. */
  class ManifestBuilder {
    var devFiles: seq<string>
    var clientPageDeps: Dict<seq<string>>
    var clientPages: Dict<string>

    ghost predicate Valid()
      reads this
    {
      clientPageDeps.Valid() && clientPages.Valid()
    }

    /** `{ devFiles: [], clientPageDeps: {}, clientPages: {} }`. */
    constructor ()
      ensures Valid()
      ensures devFiles == [] && clientPageDeps.entries == map[] && clientPages.entries == map[]
      ensures Acc(clientPageDeps, clientPages) == Acc(Empty(), Empty())
    {
      devFiles := [];
      clientPageDeps := Empty();
      clientPages := Empty();
    }

    /** Lines 32-37: push every normalised asset key under the development DLL
        directory. */
    method CollectDevFiles(assetKeys: seq<string>)
      requires Valid()
      modifies this
      ensures Valid()
      ensures devFiles == old(devFiles) + DevFiles(assetKeys)
      ensures clientPageDeps == old(clientPageDeps) && clientPages == old(clientPages)
    {
      var i := 0;
      while i < |assetKeys|
        invariant 0 <= i <= |assetKeys|
        invariant devFiles == old(devFiles) + DevFiles(assetKeys[..i])
        invariant clientPageDeps == old(clientPageDeps) && clientPages == old(clientPages)
      {
        var path := Normalize(assetKeys[i]);
        if StartsWith(path, DevDllPrefix) {
          devFiles := devFiles + [path];
        }
        assert assetKeys[..i + 1][..i] == assetKeys[..i];
        i := i + 1;
      }
      assert assetKeys[..i] == assetKeys;
    }

    /** Lines 41-78, one entry point: resolve its route, walk the files of
        its named chunks, then set the route's dependency list. */
    method AddEntryPoint(e: EntryPoint, mainJsFiles: seq<string>, consts: Constants)
      requires Valid()
      modifies this
      ensures Valid()
      ensures Acc(clientPageDeps, clientPages) == AddEntry(Acc(old(clientPageDeps), old(clientPages)), e, mainJsFiles, consts)
      ensures devFiles == old(devFiles)
    {
      var route := RouteKey(e.name, consts.routeOf);
      if route.None? {
        return;
      }
      var pagePath := route.value;
      var filesForEntry: seq<string> := [];
      ghost var visited: seq<string> := [];
      var i := 0;
      while i < |e.chunks|
        invariant 0 <= i <= |e.chunks|
        invariant visited == EntryFiles(e.chunks[..i])
        invariant Valid()
        invariant filesForEntry == OwnDeps(visited, consts.isBundledPage)
        invariant clientPages == WithPage(old(clientPages), pagePath, LastPage(visited, consts.isBundledPage))
        invariant clientPageDeps == old(clientPageDeps) && devFiles == old(devFiles)
      {
        filesForEntry := AddChunk(pagePath, e.chunks[i], filesForEntry, consts.isBundledPage, old(clientPages), visited);
        EntryFilesStep(e.chunks, i);
        visited := visited + ChunkFiles(e.chunks[i]);
        i := i + 1;
      }
      assert e.chunks[..i] == e.chunks;
      clientPageDeps := clientPageDeps.Put(pagePath, filesForEntry + mainJsFiles);
    }

    /** Lines 49-53, one chunk: only a named chunk with a file list has its
        files walked. */
    method AddChunk(pagePath: string, chunk: Chunk, filesForEntry: seq<string>, isBundledPage: string -> bool,
                    ghost base: Dict<string>, ghost visited: seq<string>)
      returns (filesForEntry': seq<string>)
      requires Valid() && base.Valid()
      requires filesForEntry == OwnDeps(visited, isBundledPage)
      requires clientPages == WithPage(base, pagePath, LastPage(visited, isBundledPage))
      modifies this
      ensures Valid()
      ensures filesForEntry' == OwnDeps(visited + ChunkFiles(chunk), isBundledPage)
      ensures clientPages == WithPage(base, pagePath, LastPage(visited + ChunkFiles(chunk), isBundledPage))
      ensures clientPageDeps == old(clientPageDeps) && devFiles == old(devFiles)
    {
      if chunk.name.Some? && chunk.name.value != "" && chunk.files.Some? {
        filesForEntry' := AddChunkFiles(pagePath, chunk.files.value, filesForEntry, isBundledPage, base, visited);
      } else {
        filesForEntry' := filesForEntry;
        assert visited + ChunkFiles(chunk) == visited;
      }
    }

    /** Lines 55-72, the files of one chunk: skip source maps, hot updates
        and untracked files, store a page bundle as the route's
        `clientPages` entry, push every other file onto `filesForEntry`.
        `before` is the run of files already visited for this entry and
        `base` the `clientPages` object the entry started from. */
    method AddChunkFiles(pagePath: string, files: seq<string>, filesForEntry: seq<string>, isBundledPage: string -> bool,
                         ghost base: Dict<string>, ghost before: seq<string>)
      returns (filesForEntry': seq<string>)
      requires Valid() && base.Valid()
      requires filesForEntry == OwnDeps(before, isBundledPage)
      requires clientPages == WithPage(base, pagePath, LastPage(before, isBundledPage))
      modifies this
      ensures Valid()
      ensures filesForEntry' == OwnDeps(before + files, isBundledPage)
      ensures clientPages == WithPage(base, pagePath, LastPage(before + files, isBundledPage))
      ensures clientPageDeps == old(clientPageDeps) && devFiles == old(devFiles)
    {
      filesForEntry' := filesForEntry;
      ghost var seen := before;
      var j := 0;
      while j < |files|
        invariant 0 <= j <= |files|
        invariant seen == before + files[..j]
        invariant Valid()
        invariant filesForEntry' == OwnDeps(seen, isBundledPage)
        invariant clientPages == WithPage(base, pagePath, LastPage(seen, isBundledPage))
        invariant clientPageDeps == old(clientPageDeps) && devFiles == old(devFiles)
      {
        filesForEntry' := AddFile(pagePath, files[j], filesForEntry', isBundledPage, base, seen);
        SliceStep(before, files, j);
        seen := seen + [files[j]];
        j := j + 1;
      }
      assert files[..j] == files;
      assert seen == before + files;
    }

    /** One pass of the loop at lines 56-71: the tests on one file, in the
        order the source makes them. */
    method AddFile(pagePath: string, file: string, filesForEntry: seq<string>, isBundledPage: string -> bool,
                   ghost base: Dict<string>, ghost seen: seq<string>)
      returns (filesForEntry': seq<string>)
      requires Valid() && base.Valid()
      requires filesForEntry == OwnDeps(seen, isBundledPage)
      requires clientPages == WithPage(base, pagePath, LastPage(seen, isBundledPage))
      modifies this
      ensures Valid()
      ensures filesForEntry' == OwnDeps(seen + [file], isBundledPage)
      ensures clientPages == WithPage(base, pagePath, LastPage(seen + [file], isBundledPage))
      ensures clientPageDeps == old(clientPageDeps) && devFiles == old(devFiles)
    {
      VisitFile(seen, file, isBundledPage);
      filesForEntry' := filesForEntry;
      if EndsWith(file, ".map") || EndsWith(file, ".hot-update.js") {
      } else if !EndsWith(file, ".js") && !EndsWith(file, ".css") {
      } else if isBundledPage(file) {
        if LastPage(seen, isBundledPage).Some? {
          PutPut(base, pagePath, LastPage(seen, isBundledPage).value, Normalize(file));
        }
        clientPages := clientPages.Put(pagePath, Normalize(file));
      } else {
        filesForEntry' := filesForEntry' + [Normalize(file)];
      }
    }

    /** Lines 81-87: alias "/" to "/index" in each object separately. */
    method AliasRoot()
      requires Valid()
      modifies this
      ensures Valid()
      ensures clientPageDeps == AliasIndex(old(clientPageDeps)) && clientPages == AliasIndex(old(clientPages))
      ensures devFiles == old(devFiles)
    {
      if "/index" in clientPageDeps.entries {
        clientPageDeps := clientPageDeps.Put("/", clientPageDeps.entries["/index"]);
      }
      if "/index" in clientPages.entries {
        clientPages := clientPages.Put("/", clientPages.entries["/index"]);
      }
    }

    /** Lines 89-95: replace each object by its key-sorted rebuild. */
    method SortKeys()
      requires Valid()
      modifies this
      ensures Valid()
      ensures clientPageDeps == Rebuild(old(clientPageDeps)) && clientPages == Rebuild(old(clientPages))
      ensures devFiles == old(devFiles)
    {
      clientPageDeps := Rebuild(clientPageDeps);
      clientPages := Rebuild(clientPages);
    }
  }

  /** The callback (lines 17-95): the manifest it builds is `ManifestOf`, so
      every lemma of ManifestSpec about `ManifestOf` holds of it. */
  method Emit(g: Compilation, consts: Constants) returns (m: Manifest)
    ensures m == ManifestOf(g, consts)
  {
    var mainJsFiles := MainJsFiles(g.chunks, consts.mainName);
    var assetMap := new ManifestBuilder();
    assetMap.CollectDevFiles(g.assetKeys);
    var i := 0;
    while i < |g.entryPoints|
      invariant 0 <= i <= |g.entryPoints|
      invariant assetMap.Valid()
      invariant assetMap.devFiles == DevFiles(g.assetKeys)
      invariant Acc(assetMap.clientPageDeps, assetMap.clientPages)
        == AddEntries(Acc(Empty(), Empty()), g.entryPoints[..i], mainJsFiles, consts)
    {
      assert g.entryPoints[..i + 1][..i] == g.entryPoints[..i];
      assetMap.AddEntryPoint(g.entryPoints[i], mainJsFiles, consts);
      i := i + 1;
    }
    assert g.entryPoints[..i] == g.entryPoints;
    assetMap.AliasRoot();
    assetMap.SortKeys();
    m := Manifest(assetMap.devFiles, assetMap.clientPageDeps, assetMap.clientPages);
  }
}
