/** What the plugin's `emit` callback computes, as functions of the
    compilation, step by step, and the properties of the manifest that
    follow. The imperative builder in module ClientBuildManifest is proved to
    compute exactly `ManifestOf`. */
module ManifestSpec {
  import opened Wrappers
  import opened Strings
  import opened Lists
  import opened OrderedDict
  import opened Graph

  /** Asset keys under this directory are development-only bundles. */
  const DevDllPrefix := "static/development/dll/"

  /** The manifest: `devFiles`, `clientPageDeps` and `clientPages`, the two
      objects carrying their key order. */
  datatype Manifest = Manifest(devFiles: seq<string>, clientPageDeps: Dict<seq<string>>, clientPages: Dict<string>)

  // ----- The main runtime's scripts

  /** `chunks.find(c => c.name === name)`, as an index. */
  function FirstNamed(chunks: seq<Chunk>, name: string): (r: Option<nat>)
    ensures r.Some? ==> r.value < |chunks| && chunks[r.value].name == Some(name)
    ensures r.Some? ==> forall j :: 0 <= j < r.value ==> chunks[j].name != Some(name)
    ensures r.None? ==> forall j :: 0 <= j < |chunks| ==> chunks[j].name != Some(name)
  {
    if chunks == [] then None
    else if chunks[0].name == Some(name) then Some(0)
    else
      match FirstNamed(chunks[1..], name)
      case None => None
      case Some(i) => Some(i + 1)
  }

  function ScriptOf(file: string): Option<string> {
    if EndsWith(file, ".js") then Some(file) else None
  }

  /** `mainJsFiles`: the `.js` files of the first chunk named after the main
      runtime, unnormalised. */
  function MainJsFiles(chunks: seq<Chunk>, mainName: string): seq<string> {
    match FirstNamed(chunks, mainName)
    case None => []
    case Some(i) =>
      match chunks[i].files
      case None => []
      case Some(files) => if |files| > 0 then FilterMap(files, ScriptOf) else []
  }

  /** Without a chunk of that name there are no main scripts; with one, they
      are exactly the `.js` files of the first such chunk (in their order, by
      FilterMapAppend). */
  lemma MainJsFilesSpec(chunks: seq<Chunk>, mainName: string, f: string)
    ensures (forall j :: 0 <= j < |chunks| ==> chunks[j].name != Some(mainName)) ==> MainJsFiles(chunks, mainName) == []
    ensures f in MainJsFiles(chunks, mainName) <==>
      exists i :: 0 <= i < |chunks| && chunks[i].name == Some(mainName)
        && (forall j :: 0 <= j < i ==> chunks[j].name != Some(mainName))
        && chunks[i].files.Some? && f in chunks[i].files.value && EndsWith(f, ".js")
  {
    match FirstNamed(chunks, mainName)
    case None =>
    case Some(i) =>
      if chunks[i].files.Some? {
        var files := chunks[i].files.value;
        FilterMapMember(files, ScriptOf, f);
        if f in files && EndsWith(f, ".js") {
          var n :| 0 <= n < |files| && files[n] == f;
          assert ScriptOf(files[n]) == Some(f);
        }
      }
      forall i' | 0 <= i' < |chunks| && chunks[i'].name == Some(mainName)
          && (forall j :: 0 <= j < i' ==> chunks[j].name != Some(mainName))
        ensures i' == i
      {
      }
  }

  // ----- Development-only files

  function DevPath(key: string): Option<string> {
    var path := Normalize(key);
    if StartsWith(path, DevDllPrefix) then Some(path) else None
  }

  /** `devFiles`: normalised asset keys under the development DLL directory,
      in asset-key order. */
  function DevFiles(assetKeys: seq<string>): seq<string> {
    FilterMap(assetKeys, DevPath)
  }

  lemma DevFilesMember(assetKeys: seq<string>, path: string)
    ensures path in DevFiles(assetKeys) <==>
      StartsWith(path, DevDllPrefix) && exists i :: 0 <= i < |assetKeys| && Normalize(assetKeys[i]) == path
  {
    FilterMapMember(assetKeys, DevPath, path);
  }

  // ----- Routes

  /** The route of an entry point: "/" and the normalised first capture of
      the route pattern; none when the pattern does not match or captures
      nothing. */
  function RouteKey(entryName: string, routeOf: string -> Option<string>): (r: Option<string>)
    ensures r.Some? <==> routeOf(entryName).Some? && routeOf(entryName).value != ""
    ensures r.Some? ==> |r.value| >= 2 && r.value[0] == '/' && '\\' !in r.value
  {
    match routeOf(entryName)
    case None => None
    case Some(segment) => if segment == "" then None else Some("/" + Normalize(segment))
  }

  // ----- Files of an entry point and their classification

  /** The files of a chunk the entry loop visits: none when the chunk's name
      is missing or empty or its file list is missing. */
  function ChunkFiles(c: Chunk): seq<string> {
    if c.name.None? || c.name.value == "" || c.files.None? then [] else c.files.value
  }

  /** The files of an entry point's chunks, chunk by chunk, in order. */
  function EntryFiles(chunks: seq<Chunk>): seq<string> {
    if chunks == [] then [] else EntryFiles(chunks[..|chunks| - 1]) + ChunkFiles(chunks[|chunks| - 1])
  }

  /** One chunk more. */
  lemma EntryFilesStep(chunks: seq<Chunk>, i: nat)
    requires i < |chunks|
    ensures EntryFiles(chunks[..i + 1]) == EntryFiles(chunks[..i]) + ChunkFiles(chunks[i])
  {
    assert chunks[..i + 1][..i] == chunks[..i];
  }

  lemma {:induction false} EntryFilesMember(chunks: seq<Chunk>, f: string)
    ensures f in EntryFiles(chunks) <==>
      exists i :: 0 <= i < |chunks| && chunks[i].name.Some? && chunks[i].name.value != ""
        && chunks[i].files.Some? && f in chunks[i].files.value
  {
    if chunks != [] {
      var init := chunks[..|chunks| - 1];
      EntryFilesMember(init, f);
      forall i | 0 <= i < |init| ensures init[i] == chunks[i] { }
    }
  }

  datatype Role = Dropped | PageBundle | Dependency

  /** What the entry loop does with one file: skip source maps and hot
      updates, skip everything but scripts and stylesheets, and set apart the
      files the bundled-page pattern recognises. */
  function Classify(file: string, isBundledPage: string -> bool): Role {
    if EndsWith(file, ".map") || EndsWith(file, ".hot-update.js") then Dropped
    else if !EndsWith(file, ".js") && !EndsWith(file, ".css") then Dropped
    else if isBundledPage(file) then PageBundle
    else Dependency
  }

  /** A file the manifest may list: a script or a stylesheet, neither a
      source map nor a hot update. */
  predicate Tracked(file: string) {
    && !EndsWith(file, ".map")
    && !EndsWith(file, ".hot-update.js")
    && (EndsWith(file, ".js") || EndsWith(file, ".css"))
  }

  /** Only tracked files are kept, page bundles are exactly the tracked files
      the pattern recognises, and a kept file is still tracked once
      normalised. */
  lemma ClassifyKeepsTracked(file: string, isBundledPage: string -> bool)
    ensures Classify(file, isBundledPage) != Dropped <==> Tracked(file)
    ensures Classify(file, isBundledPage) == PageBundle <==> Tracked(file) && isBundledPage(file)
    ensures Tracked(file) ==> Tracked(Normalize(file))
  {
    NormalizeEndsWith(file, ".map");
    NormalizeEndsWith(file, ".hot-update.js");
    NormalizeEndsWith(file, ".js");
    NormalizeEndsWith(file, ".css");
  }

  function DependencyOf(file: string, isBundledPage: string -> bool): Option<string> {
    if Classify(file, isBundledPage) == Dependency then Some(Normalize(file)) else None
  }

  /** `filesForEntry`: the normalised dependency files, in encounter order. */
  function OwnDeps(files: seq<string>, isBundledPage: string -> bool): seq<string> {
    FilterMap(files, f => DependencyOf(f, isBundledPage))
  }

  /** Dependencies are listed in encounter order: a longer run of files
      extends the list of a shorter one. */
  lemma OwnDepsAppend(a: seq<string>, b: seq<string>, isBundledPage: string -> bool)
    ensures OwnDeps(a + b, isBundledPage) == OwnDeps(a, isBundledPage) + OwnDeps(b, isBundledPage)
  {
    FilterMapAppend(a, b, f => DependencyOf(f, isBundledPage));
  }

  /** A route's own dependencies are exactly the normalised files classified
      as dependencies; so they are tracked, normalised, and never page
      bundles. */
  lemma OwnDepsMember(files: seq<string>, isBundledPage: string -> bool, x: string)
    ensures x in OwnDeps(files, isBundledPage) <==>
      exists i :: 0 <= i < |files| && Classify(files[i], isBundledPage) == Dependency && Normalize(files[i]) == x
    ensures x in OwnDeps(files, isBundledPage) ==> Tracked(x) && '\\' !in x
  {
    FilterMapMember(files, f => DependencyOf(f, isBundledPage), x);
    if x in OwnDeps(files, isBundledPage) {
      var i :| 0 <= i < |files| && Classify(files[i], isBundledPage) == Dependency && Normalize(files[i]) == x;
      ClassifyKeepsTracked(files[i], isBundledPage);
    }
  }

  /** The page bundle left in `clientPages` by a run over `files`: the last
      one, normalised. */
  function LastPage(files: seq<string>, isBundledPage: string -> bool): Option<string> {
    if files == [] then None
    else
      var f := files[|files| - 1];
      if Classify(f, isBundledPage) == PageBundle then Some(Normalize(f))
      else LastPage(files[..|files| - 1], isBundledPage)
  }

  /** There is a page bundle exactly when some file is one. */
  lemma {:induction false} LastPageNone(files: seq<string>, isBundledPage: string -> bool)
    ensures LastPage(files, isBundledPage).None? <==>
      forall i :: 0 <= i < |files| ==> Classify(files[i], isBundledPage) != PageBundle
  {
    if files != [] {
      var n := |files| - 1;
      LastPageNone(files[..n], isBundledPage);
      assert forall i :: 0 <= i < n ==> files[..n][i] == files[i];
    }
  }

  /** The page bundle kept is the last file that is one, normalised. */
  lemma {:induction false} LastPageIsLast(files: seq<string>, isBundledPage: string -> bool) returns (i: nat)
    requires LastPage(files, isBundledPage).Some?
    ensures i < |files| && Classify(files[i], isBundledPage) == PageBundle
    ensures LastPage(files, isBundledPage).value == Normalize(files[i])
    ensures forall j :: i < j < |files| ==> Classify(files[j], isBundledPage) != PageBundle
  {
    var n := |files| - 1;
    if Classify(files[n], isBundledPage) == PageBundle {
      i := n;
    } else {
      var init := files[..n];
      i := LastPageIsLast(init, isBundledPage);
      assert init[i] == files[i];
      forall j | i < j < |files| ensures Classify(files[j], isBundledPage) != PageBundle {
        if j < n {
          assert init[j] == files[j];
        }
      }
    }
  }

  /** So the page kept is tracked and free of backslashes. */
  lemma LastPageTracked(files: seq<string>, isBundledPage: string -> bool)
    requires LastPage(files, isBundledPage).Some?
    ensures Tracked(LastPage(files, isBundledPage).value) && '\\' !in LastPage(files, isBundledPage).value
  {
    var i := LastPageIsLast(files, isBundledPage);
    ClassifyKeepsTracked(files[i], isBundledPage);
  }

  /** One file more: a dependency is appended, a page bundle replaces the
      page, anything else changes neither. */
  lemma VisitFile(before: seq<string>, file: string, isBundledPage: string -> bool)
    ensures OwnDeps(before + [file], isBundledPage) ==
      OwnDeps(before, isBundledPage) + (if Classify(file, isBundledPage) == Dependency then [Normalize(file)] else [])
    ensures LastPage(before + [file], isBundledPage) ==
      if Classify(file, isBundledPage) == PageBundle then Some(Normalize(file)) else LastPage(before, isBundledPage)
  {
    var seen := before + [file];
    assert seen[..|seen| - 1] == before && seen[|seen| - 1] == file;
  }

  /** Over two runs, the later one's page bundle wins. */
  lemma {:induction false} LastPageAppend(a: seq<string>, b: seq<string>, isBundledPage: string -> bool)
    ensures LastPage(a + b, isBundledPage) ==
      if LastPage(b, isBundledPage).Some? then LastPage(b, isBundledPage) else LastPage(a, isBundledPage)
  {
    if b == [] {
      assert a + b == a;
    } else {
      var ab := a + b;
      assert ab[..|ab| - 1] == a + b[..|b| - 1];
      assert ab[|ab| - 1] == b[|b| - 1];
      LastPageAppend(a, b[..|b| - 1], isBundledPage);
    }
  }

  // ----- The entry-point loop

  /** The two objects the entry loop fills. */
  datatype Acc = Acc(deps: Dict<seq<string>>, pages: Dict<string>) {
    ghost predicate Valid() {
      deps.Valid() && pages.Valid()
    }
  }

  function WithPage(pages: Dict<string>, route: string, page: Option<string>): (r: Dict<string>)
    requires pages.Valid()
    ensures r.Valid()
  {
    if page.Some? then pages.Put(route, page.value) else pages
  }

  /** One pass of the entry loop: nothing for an entry without a route;
      otherwise its last page bundle (if any) into `clientPages` and its own
      dependencies followed by the main scripts into `clientPageDeps`. */
  function AddEntry(acc: Acc, e: EntryPoint, mainJs: seq<string>, consts: Constants): (r: Acc)
    requires acc.Valid()
    ensures r.Valid()
  {
    match RouteKey(e.name, consts.routeOf)
    case None => acc
    case Some(route) =>
      var files := EntryFiles(e.chunks);
      Acc(acc.deps.Put(route, OwnDeps(files, consts.isBundledPage) + mainJs),
          WithPage(acc.pages, route, LastPage(files, consts.isBundledPage)))
  }

  function AddEntries(acc: Acc, es: seq<EntryPoint>, mainJs: seq<string>, consts: Constants): (r: Acc)
    requires acc.Valid()
    ensures r.Valid()
  {
    if es == [] then acc
    else AddEntry(AddEntries(acc, es[..|es| - 1], mainJs, consts), es[|es| - 1], mainJs, consts)
  }

  /** The index of the last entry point that resolves to `route`. */
  function LastEntryFor(es: seq<EntryPoint>, route: string, routeOf: string -> Option<string>): (r: Option<nat>)
    ensures r.Some? ==> r.value < |es| && RouteKey(es[r.value].name, routeOf) == Some(route)
  {
    if es == [] then None
    else if RouteKey(es[|es| - 1].name, routeOf) == Some(route) then Some(|es| - 1)
    else LastEntryFor(es[..|es| - 1], route, routeOf)
  }

  /** No entry point after the one found resolves to `route`, and none at
      all does when none is found. */
  lemma {:induction false} LastEntryForIsLast(es: seq<EntryPoint>, route: string, routeOf: string -> Option<string>)
    ensures var r := LastEntryFor(es, route, routeOf);
      && (r.Some? ==> forall j :: r.value < j < |es| ==> RouteKey(es[j].name, routeOf) != Some(route))
      && (r.None? ==> forall j :: 0 <= j < |es| ==> RouteKey(es[j].name, routeOf) != Some(route))
  {
    if es != [] && RouteKey(es[|es| - 1].name, routeOf) != Some(route) {
      var init := es[..|es| - 1];
      LastEntryForIsLast(init, route, routeOf);
      var r := LastEntryFor(init, route, routeOf);
      var from := if r.Some? then r.value + 1 else 0;
      forall j | from <= j < |es| ensures RouteKey(es[j].name, routeOf) != Some(route) {
        if j < |init| {
          assert init[j] == es[j];
        }
      }
    }
  }

  /** The files of all entry points resolving to `route`, in order. */
  function RouteFiles(es: seq<EntryPoint>, route: string, routeOf: string -> Option<string>): seq<string> {
    if es == [] then []
    else
      var e := es[|es| - 1];
      RouteFiles(es[..|es| - 1], route, routeOf) + (if RouteKey(e.name, routeOf) == Some(route) then EntryFiles(e.chunks) else [])
  }

  lemma {:induction false} RouteFilesUnresolved(es: seq<EntryPoint>, route: string, routeOf: string -> Option<string>)
    requires forall j :: 0 <= j < |es| ==> RouteKey(es[j].name, routeOf) != Some(route)
    ensures RouteFiles(es, route, routeOf) == []
  {
    if es != [] {
      RouteFilesUnresolved(es[..|es| - 1], route, routeOf);
    }
  }

  /** `clientPageDeps[route]` after the loop: set by the last entry point that
      resolves to `route`, which replaces what earlier ones set, to its own
      dependencies followed by the main scripts; untouched when none does. */
  lemma {:induction false} AddEntriesDeps(acc: Acc, es: seq<EntryPoint>, mainJs: seq<string>, consts: Constants, route: string)
    requires acc.Valid()
    ensures var r := AddEntries(acc, es, mainJs, consts);
      match LastEntryFor(es, route, consts.routeOf)
      case Some(i) =>
        route in r.deps.entries && r.deps.entries[route] == OwnDeps(EntryFiles(es[i].chunks), consts.isBundledPage) + mainJs
      case None =>
        (route in r.deps.entries <==> route in acc.deps.entries)
        && (route in acc.deps.entries ==> r.deps.entries[route] == acc.deps.entries[route])
  {
    if es != [] {
      var init := es[..|es| - 1];
      AddEntriesDeps(acc, init, mainJs, consts, route);
      match LastEntryFor(init, route, consts.routeOf)
      case Some(i) => assert init[i] == es[i];
      case None =>
    }
  }

  /** `clientPages[route]` after the loop: the last page bundle among the
      files of every entry point that resolves to `route` (a later entry
      without one does not clear it); untouched when there is none. */
  lemma {:induction false} AddEntriesPages(acc: Acc, es: seq<EntryPoint>, mainJs: seq<string>, consts: Constants, route: string)
    requires acc.Valid()
    ensures var r := AddEntries(acc, es, mainJs, consts);
      var page := LastPage(RouteFiles(es, route, consts.routeOf), consts.isBundledPage);
      && (page.Some? ==> route in r.pages.entries && r.pages.entries[route] == page.value)
      && (page.None? ==> (route in r.pages.entries <==> route in acc.pages.entries)
                         && (route in acc.pages.entries ==> r.pages.entries[route] == acc.pages.entries[route]))
  {
    if es != [] {
      var init := es[..|es| - 1];
      var e := es[|es| - 1];
      AddEntriesPages(acc, init, mainJs, consts, route);
      var own := if RouteKey(e.name, consts.routeOf) == Some(route) then EntryFiles(e.chunks) else [];
      LastPageAppend(RouteFiles(init, route, consts.routeOf), own, consts.isBundledPage);
    }
  }

  // ----- Aliasing and the final rebuild

  /** Lines 81-87: when "/index" is a key, "/" becomes a key with the same
      value; nothing else changes. */
  function AliasIndex<V>(d: Dict<V>): (r: Dict<V>)
    requires d.Valid()
    ensures r.Valid()
    ensures forall key :: key != "/" ==> (key in r.entries <==> key in d.entries)
    ensures forall key :: key != "/" && key in d.entries ==> r.entries[key] == d.entries[key]
    ensures "/" in r.entries <==> "/" in d.entries || "/index" in d.entries
    ensures "/index" in d.entries ==> r.entries["/"] == d.entries["/index"]
    ensures "/index" !in d.entries ==> r == d
  {
    if "/index" in d.entries then d.Put("/", d.entries["/index"]) else d
  }

  /** The whole callback: main scripts, development files, the entry loop
      from two empty objects, aliasing, then the sorted rebuild. */
  function ManifestOf(g: Compilation, consts: Constants): Manifest {
    var mainJs := MainJsFiles(g.chunks, consts.mainName);
    var acc := AddEntries(Acc(Empty(), Empty()), g.entryPoints, mainJs, consts);
    Manifest(DevFiles(g.assetKeys), Rebuild(AliasIndex(acc.deps)), Rebuild(AliasIndex(acc.pages)))
  }

  // ----- Properties of the manifest

  /** `clientPageDeps`: keys strictly ascending; a route other than "/" is a
      key exactly when some entry point resolves to it, with the last such
      entry's own dependencies followed by the main scripts; "/" is a key
      exactly when "/index" is, with the same list. */
  lemma ManifestDeps(g: Compilation, consts: Constants, route: string)
    ensures var m := ManifestOf(g, consts);
      var mainJs := MainJsFiles(g.chunks, consts.mainName);
      var last := LastEntryFor(g.entryPoints, route, consts.routeOf);
      && StrictlyAscending(m.clientPageDeps.order)
      && (route != "/" ==> (route in m.clientPageDeps.entries <==> last.Some?))
      && (route != "/" && last.Some? ==>
            m.clientPageDeps.entries[route] == OwnDeps(EntryFiles(g.entryPoints[last.value].chunks), consts.isBundledPage) + mainJs)
      && ("/" in m.clientPageDeps.entries <==> "/index" in m.clientPageDeps.entries)
      && ("/" in m.clientPageDeps.entries ==> m.clientPageDeps.entries["/"] == m.clientPageDeps.entries["/index"])
  {
    var mainJs := MainJsFiles(g.chunks, consts.mainName);
    var empty := Acc(Empty(), Empty());
    AddEntriesDeps(empty, g.entryPoints, mainJs, consts, route);
    AddEntriesDeps(empty, g.entryPoints, mainJs, consts, "/");
    AddEntriesDeps(empty, g.entryPoints, mainJs, consts, "/index");
  }

  /** Every list in `clientPageDeps` ends with the main scripts, and what
      precedes them is tracked, normalised files. */
  lemma ManifestDepsShape(g: Compilation, consts: Constants, route: string)
    requires route in ManifestOf(g, consts).clientPageDeps.entries
    ensures var deps := ManifestOf(g, consts).clientPageDeps.entries[route];
      var mainJs := MainJsFiles(g.chunks, consts.mainName);
      && |mainJs| <= |deps|
      && deps[|deps| - |mainJs|..] == mainJs
      && forall x :: x in deps[..|deps| - |mainJs|] ==> Tracked(x) && '\\' !in x
  {
    var mainJs := MainJsFiles(g.chunks, consts.mainName);
    var key := if route == "/" then "/index" else route;
    ManifestDeps(g, consts, route);
    ManifestDeps(g, consts, key);
    var i := LastEntryFor(g.entryPoints, key, consts.routeOf).value;
    var own := OwnDeps(EntryFiles(g.entryPoints[i].chunks), consts.isBundledPage);
    var deps := own + mainJs;
    assert deps[..|own|] == own && deps[|own|..] == mainJs;
    forall x | x in own ensures Tracked(x) && '\\' !in x {
      OwnDepsMember(EntryFiles(g.entryPoints[i].chunks), consts.isBundledPage, x);
    }
  }

  /** `clientPages`: keys strictly ascending; a route other than "/" maps to
      the last page bundle among the files of the entry points resolving to
      it, and is a key only if there is one; "/" aliases "/index"; every page
      file is tracked and normalised. */
  lemma ManifestPages(g: Compilation, consts: Constants, route: string)
    ensures var m := ManifestOf(g, consts);
      var page := LastPage(RouteFiles(g.entryPoints, route, consts.routeOf), consts.isBundledPage);
      && StrictlyAscending(m.clientPages.order)
      && (route != "/" ==> (route in m.clientPages.entries <==> page.Some?))
      && (route != "/" && page.Some? ==> m.clientPages.entries[route] == page.value)
      && ("/" in m.clientPages.entries <==> "/index" in m.clientPages.entries)
      && ("/" in m.clientPages.entries ==> m.clientPages.entries["/"] == m.clientPages.entries["/index"])
      && (route in m.clientPages.entries ==> Tracked(m.clientPages.entries[route]) && '\\' !in m.clientPages.entries[route])
  {
    var m := ManifestOf(g, consts);
    var mainJs := MainJsFiles(g.chunks, consts.mainName);
    var empty := Acc(Empty(), Empty());
    AddEntriesPages(empty, g.entryPoints, mainJs, consts, route);
    AddEntriesPages(empty, g.entryPoints, mainJs, consts, "/");
    RouteFilesUnresolved(g.entryPoints, "/", consts.routeOf);
    AddEntriesPages(empty, g.entryPoints, mainJs, consts, "/index");
    if route in m.clientPages.entries {
      var key := if route == "/" then "/index" else route;
      LastPageTracked(RouteFiles(g.entryPoints, key, consts.routeOf), consts.isBundledPage);
    }
  }
}
