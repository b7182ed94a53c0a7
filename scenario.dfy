/** A worked example: a build with the main runtime, an "about" page and an
    "index" page whose chunk holds its bundled page file. The route pattern
    and the bundled-page pattern are stand-ins that recognise just these
    names, since the real ones are parameters of the model. */
module Scenario {
  import opened Wrappers
  import opened Strings
  import opened Lists
  import opened OrderedDict
  import opened Graph
  import opened ManifestSpec

  function ExampleRoute(name: string): Option<string> {
    if name == "pages/about" then Some("about")
    else if name == "pages/index" then Some("index")
    else None
  }

  function ExampleBundledPage(file: string): bool {
    file == "pages/index.js"
  }

  function ExampleConstants(): Constants {
    Constants(ExampleRoute, ExampleBundledPage, "main")
  }

  function MainChunk(): Chunk { Chunk(Some("main"), Some(["main.js"])) }
  function AboutChunk(): Chunk { Chunk(Some("about"), Some(["about.js", "about.css", "about.js.map"])) }
  function IndexChunk(): Chunk { Chunk(Some("index"), Some(["pages/index.js"])) }

  function ExampleEntries(): seq<EntryPoint> {
    [EntryPoint("main", [MainChunk()]), EntryPoint("pages/about", [AboutChunk()]), EntryPoint("pages/index", [IndexChunk()])]
  }

  function ExampleAssetKeys(): seq<string> {
    ["main.js", "about.js", "about.css", "about.js.map", "pages/index.js"]
  }

  function ExampleGraph(): Compilation {
    Compilation([MainChunk(), AboutChunk(), IndexChunk()], ExampleAssetKeys(), ExampleEntries())
  }

  lemma ExampleMainJs()
    ensures MainJsFiles(ExampleGraph().chunks, "main") == ["main.js"]
  {
    assert FirstNamed(ExampleGraph().chunks, "main") == Some(0);
    assert EndsWith("main.js", ".js");
    assert ["main.js"][..0] == [];
  }

  lemma ExampleDevPaths()
    ensures forall i :: 0 <= i < |ExampleAssetKeys()| ==> DevPath(ExampleAssetKeys()[i]) == None
  {
    forall i | 0 <= i < |ExampleAssetKeys()| ensures DevPath(ExampleAssetKeys()[i]) == None {
      assert |Normalize(ExampleAssetKeys()[i])| < |DevDllPrefix|;
    }
  }

  lemma ExampleDevFiles()
    ensures DevFiles(ExampleAssetKeys()) == []
  {
    ExampleDevPaths();
    FilterMapNone(ExampleAssetKeys(), DevPath);
  }

  lemma AboutScriptIsDependency()
    ensures Classify("about.js", ExampleBundledPage) == Dependency
  {
    assert EndsWith("about.js", ".js");
  }

  lemma AboutStylesheetIsDependency()
    ensures Classify("about.css", ExampleBundledPage) == Dependency
  {
    assert EndsWith("about.css", ".css");
  }

  lemma AboutSourceMapDropped()
    ensures Classify("about.js.map", ExampleBundledPage) == Dropped
  {
    assert EndsWith("about.js.map", ".map");
  }

  lemma IndexBundleIsPage()
    ensures Classify("pages/index.js", ExampleBundledPage) == PageBundle
  {
    assert EndsWith("pages/index.js", ".js");
  }

  lemma AboutScriptKept()
    ensures DependencyOf("about.js", ExampleBundledPage) == Some("about.js")
  {
    AboutScriptIsDependency();
    NormalizeFixes("about.js");
  }

  lemma AboutStylesheetKept()
    ensures DependencyOf("about.css", ExampleBundledPage) == Some("about.css")
  {
    AboutStylesheetIsDependency();
    NormalizeFixes("about.css");
  }

  lemma AboutFiles()
    ensures EntryFiles([AboutChunk()]) == ["about.js", "about.css", "about.js.map"]
  {
    assert [AboutChunk()][..0] == [];
  }

  lemma AboutScriptDeps()
    ensures OwnDeps(["about.js"], ExampleBundledPage) == ["about.js"]
    ensures LastPage(["about.js"], ExampleBundledPage) == None
  {
    AboutScriptKept();
    AboutScriptIsDependency();
    assert ["about.js"][..0] == [];
  }

  lemma AboutStylesheetDeps()
    ensures OwnDeps(["about.css"], ExampleBundledPage) == ["about.css"]
    ensures LastPage(["about.css"], ExampleBundledPage) == None
  {
    AboutStylesheetKept();
    AboutStylesheetIsDependency();
    assert ["about.css"][..0] == [];
  }

  lemma AboutSourceMapDeps()
    ensures OwnDeps(["about.js.map"], ExampleBundledPage) == []
    ensures LastPage(["about.js.map"], ExampleBundledPage) == None
  {
    AboutSourceMapDropped();
    assert ["about.js.map"][..0] == [];
  }

  lemma AboutDeps()
    ensures OwnDeps(["about.js", "about.css", "about.js.map"], ExampleBundledPage) == ["about.js", "about.css"]
  {
    AboutScriptDeps();
    AboutStylesheetDeps();
    AboutSourceMapDeps();
    AboutSplit();
    OwnDepsAppend(["about.js"], ["about.css"], ExampleBundledPage);
    OwnDepsAppend(["about.js", "about.css"], ["about.js.map"], ExampleBundledPage);
  }

  /** The runs of "about" files, split at each file. */
  lemma AboutSplit()
    ensures ["about.js"] + ["about.css"] == ["about.js", "about.css"]
    ensures ["about.js", "about.css"] + ["about.js.map"] == ["about.js", "about.css", "about.js.map"]
  {
  }

  lemma AboutPage()
    ensures LastPage(["about.js", "about.css", "about.js.map"], ExampleBundledPage) == None
  {
    AboutScriptDeps();
    AboutStylesheetDeps();
    AboutSourceMapDeps();
    AboutSplit();
    LastPageAppend(["about.js"], ["about.css"], ExampleBundledPage);
    LastPageAppend(["about.js", "about.css"], ["about.js.map"], ExampleBundledPage);
  }

  lemma IndexFiles()
    ensures EntryFiles([IndexChunk()]) == ["pages/index.js"]
  {
    assert [IndexChunk()][..0] == [];
  }

  lemma IndexDeps()
    ensures OwnDeps(["pages/index.js"], ExampleBundledPage) == []
  {
    IndexBundleIsPage();
    assert ["pages/index.js"][..0] == [];
  }

  lemma IndexBundleName()
    ensures Normalize("pages/index.js") == "pages/index.js"
  {
    NormalizeFixes("pages/index.js");
  }

  lemma IndexPage()
    ensures LastPage(["pages/index.js"], ExampleBundledPage) == Some("pages/index.js")
  {
    IndexBundleIsPage();
    IndexBundleName();
    assert ["pages/index.js"][..0] == [];
  }

  lemma AboutSegment()
    ensures "/" + Normalize("about") == "/about"
  {
    NormalizeFixes("about");
  }

  lemma IndexSegment()
    ensures "/" + Normalize("index") == "/index"
  {
    NormalizeFixes("index");
  }

  lemma ExampleRoutes()
    ensures RouteKey("main", ExampleRoute) == None
    ensures RouteKey("pages/about", ExampleRoute) == Some("/about")
    ensures RouteKey("pages/index", ExampleRoute) == Some("/index")
  {
    AboutSegment();
    IndexSegment();
  }

  lemma LoopAfterMain()
    ensures AddEntries(Acc(Empty(), Empty()), ExampleEntries()[..1], ["main.js"], ExampleConstants()) == Acc(Empty(), Empty())
  {
    ExampleRoutes();
    assert ExampleEntries()[..1][..0] == [];
  }

  lemma AboutPut()
    ensures Empty<seq<string>>().Put("/about", ["about.js", "about.css"] + ["main.js"])
      == Dict(["/about"], map["/about" := ["about.js", "about.css", "main.js"]])
  {
    assert ["about.js", "about.css"] + ["main.js"] == ["about.js", "about.css", "main.js"];
  }

  lemma AboutEntry()
    ensures AddEntry(Acc(Empty(), Empty()), ExampleEntries()[1], ["main.js"], ExampleConstants())
      == Acc(Dict(["/about"], map["/about" := ["about.js", "about.css", "main.js"]]), Empty())
  {
    var e := ExampleEntries()[1];
    assert e.name == "pages/about" && e.chunks == [AboutChunk()];
    ExampleRoutes();
    AboutFiles();
    AboutDeps();
    AboutPage();
    AboutPut();
  }

  lemma IndexPut()
    ensures Dict(["/about"], map["/about" := ["about.js", "about.css", "main.js"]]).Put("/index", [] + ["main.js"])
      == Dict(["/about", "/index"], map["/about" := ["about.js", "about.css", "main.js"], "/index" := ["main.js"]])
  {
    assert [] + ["main.js"] == ["main.js"];
  }

  lemma IndexEntryDeps()
    ensures AddEntry(Acc(Dict(["/about"], map["/about" := ["about.js", "about.css", "main.js"]]), Empty()),
                     ExampleEntries()[2], ["main.js"], ExampleConstants()).deps
      == Dict(["/about", "/index"], map["/about" := ["about.js", "about.css", "main.js"], "/index" := ["main.js"]])
  {
    var e := ExampleEntries()[2];
    assert e.name == "pages/index" && e.chunks == [IndexChunk()];
    ExampleRoutes();
    IndexFiles();
    IndexDeps();
    IndexPut();
  }

  lemma IndexEntryPages()
    ensures AddEntry(Acc(Dict(["/about"], map["/about" := ["about.js", "about.css", "main.js"]]), Empty()),
                     ExampleEntries()[2], ["main.js"], ExampleConstants()).pages
      == Dict(["/index"], map["/index" := "pages/index.js"])
  {
    var e := ExampleEntries()[2];
    assert e.name == "pages/index" && e.chunks == [IndexChunk()];
    ExampleRoutes();
    IndexFiles();
    IndexPage();
    assert Empty<string>().Put("/index", "pages/index.js") == Dict(["/index"], map["/index" := "pages/index.js"]);
  }

  lemma LoopAfterAbout()
    ensures AddEntries(Acc(Empty(), Empty()), ExampleEntries()[..2], ["main.js"], ExampleConstants())
      == Acc(Dict(["/about"], map["/about" := ["about.js", "about.css", "main.js"]]), Empty())
  {
    var es := ExampleEntries();
    LoopAfterMain();
    AboutEntry();
    assert es[..2][..1] == es[..1] && es[..2][1] == es[1];
  }

  lemma ExampleLoop()
    ensures AddEntries(Acc(Empty(), Empty()), ExampleEntries(), ["main.js"], ExampleConstants())
      == Acc(Dict(["/about", "/index"], map["/about" := ["about.js", "about.css", "main.js"], "/index" := ["main.js"]]),
             Dict(["/index"], map["/index" := "pages/index.js"]))
  {
    var es := ExampleEntries();
    LoopAfterAbout();
    IndexEntryDeps();
    IndexEntryPages();
    assert es[..2] == es[..|es| - 1];
  }

  lemma ExampleSort()
    ensures Sort(["/about", "/index", "/"]) == ["/", "/about", "/index"]
    ensures Sort(["/index", "/"]) == ["/", "/index"]
  {
    assert Less("/", "/about") && Less("/", "/index") && Less("/about", "/index");
    assert !Less("/index", "/") && !Less("/about", "/");
    assert Sort(["/"]) == ["/"] by {
      assert ["/"][1..] == [];
    }
    assert ["/index", "/"][1..] == ["/"] && ["/about", "/index", "/"][1..] == ["/index", "/"];
  }

  lemma DepsAliased()
    ensures AliasIndex(Dict(["/about", "/index"], map["/about" := ["about.js", "about.css", "main.js"], "/index" := ["main.js"]]))
      == Dict(["/about", "/index", "/"],
              map["/about" := ["about.js", "about.css", "main.js"], "/index" := ["main.js"], "/" := ["main.js"]])
  {
    var about := ["about.js", "about.css", "main.js"];
    var main := ["main.js"];
    assert Dict(["/about", "/index"], map["/about" := about, "/index" := main]).entries["/index"] == main;
  }

  lemma ExampleDepsOut()
    ensures Rebuild(AliasIndex(Dict(["/about", "/index"], map["/about" := ["about.js", "about.css", "main.js"], "/index" := ["main.js"]])))
      == Dict(["/", "/about", "/index"],
              map["/" := ["main.js"], "/about" := ["about.js", "about.css", "main.js"], "/index" := ["main.js"]])
  {
    DepsAliased();
    ExampleSort();
    var about := ["about.js", "about.css", "main.js"];
    var main := ["main.js"];
    assert map["/about" := about, "/index" := main, "/" := main] == map["/" := main, "/about" := about, "/index" := main];
  }

  lemma ExamplePagesOut()
    ensures Rebuild(AliasIndex(Dict(["/index"], map["/index" := "pages/index.js"])))
      == Dict(["/", "/index"], map["/" := "pages/index.js", "/index" := "pages/index.js"])
  {
    var pages := Dict(["/index"], map["/index" := "pages/index.js"]);
    ExampleSort();
    assert AliasIndex(pages) == Dict(["/index", "/"], map["/index" := "pages/index.js", "/" := "pages/index.js"]);
  }

  /** The source map of "about" is dropped, the main script ends every list,
      the page bundle of "/index" goes to `clientPages` only, and "/" aliases
      "/index" in both objects, whose keys come out sorted. */
  lemma ExampleManifest()
    ensures ManifestOf(ExampleGraph(), ExampleConstants())
      == Manifest([],
                  Dict(["/", "/about", "/index"],
                       map["/" := ["main.js"], "/about" := ["about.js", "about.css", "main.js"], "/index" := ["main.js"]]),
                  Dict(["/", "/index"], map["/" := "pages/index.js", "/index" := "pages/index.js"]))
  {
    var g := ExampleGraph();
    assert g.chunks == [MainChunk(), AboutChunk(), IndexChunk()] && g.assetKeys == ExampleAssetKeys() && g.entryPoints == ExampleEntries();
    ExampleMainJs();
    ExampleDevFiles();
    ExampleLoop();
    ExampleDepsOut();
    ExamplePagesOut();
  }
}
