/**
 * `MoxideProj`: a project rooted at the directory that holds its
 * `manifest.toml`, with sources under `src` and the build output under
 * `output` unless another output directory is set.
 *
 * The filesystem is not modelled as a store. Each call the source makes
 * (`read_to_string`, `exists`, the creating and removing calls, the
 * directory walk) is answered by a `FileSystem` value the caller supplies,
 * and the methods return the trace of the mutating calls they made, in order.
 */
module Proj {
  import opened Wrappers
  import opened Errors
  import opened Text
  import opened Toml
  import opened Paths
  import opened UrlEncoding
  import opened Manifests
  import opened MkEntry
  import opened Render

  const SrcDir := "src"
  const OutputDir := "output"
  const ContentsDir := "contents"
  const IndexFile := "index.md"
  const ManifestFile := "manifest.toml"
  /** How deep the build's directory walk goes below `src`. */
  const MaxDepth := 2
  /**
   * The description of the index page `create_page` writes, spelt in short
   * pieces so that the verifier can read off its characters.
   */
  const HelloPage := "Hello,World! " + ("This is the " + ("index markdown " + ("of your `page`/" + "`bundle`/`...`!")))
  /** The description of the manifest `create_proj` writes. */
  const HelloSite := "Hello,World!"

  /** A mutating filesystem call. */
  datatype Effect =
    | RemoveDirAll(path: Path)
    | CreateDirAll(path: Path)
    | CreateNew(path: Path)
    | WriteAll(path: Path, text: string)

  /** One item of a directory walk: its path, its depth below the walk's root, and whether it is a regular file. */
  datatype Walked = Walked(path: Path, depth: nat, isFile: bool)

  /**
   * The filesystem's answers: what reading a file gives, whether a path
   * exists, how each mutating call ends, and what walking a directory yields
   * (at every depth; a walk item may itself be an error).
   */
  datatype FileSystem = FileSystem(
    read: Path -> Result<string, Error>,
    present: Path -> Result<bool, Error>,
    perform: Effect -> Result<(), Error>,
    walk: Path -> seq<Result<Walked, Error>>)

  // ---------------------------------------------------------------------
  // Paths of pages and projects

  /** The directory `create_page` makes for a page called `name` under `src`. */
  function PagePath(src: Path, name: string): (p: Path)
    ensures name != "" ==> |p| == |src| + 1 && IsPrefix(src, p) && FileName(p) == Encode(name)
    ensures name == "" ==> p == src
  {
    Push(src, Encode(name))
  }

  /** The page's `index.md`. */
  function IndexPath(src: Path, name: string): (p: Path)
    ensures |p| == |PagePath(src, name)| + 1 && IsPrefix(PagePath(src, name), p) && FileName(p) == IndexFile
  {
    Push(PagePath(src, name), IndexFile)
  }

  /** The directory `create_proj` makes: the encoded name as a relative path. */
  function ProjPath(name: string): (p: Path)
    ensures name != "" ==> p == [Encode(name)]
    ensures name == "" ==> p == []
  {
    Push([], Encode(name))
  }

  /** The meta of the page `create_page` seeds: the name as title, the creation time as date. */
  function SeedMeta(name: string, now: Timestamp): (m: Meta)
    ensures m.title == name && m.date == now && m.tag == {} && m.renderer == ""
  {
    DefaultMeta().(title := name, date := now)
  }

  function SeedEntry(name: string, now: Timestamp): (e: Entry)
    ensures e.meta == SeedMeta(name, now) && e.description == HelloPage && e.content == ""
  {
    NewEntry(SeedMeta(name, now), HelloPage)
  }

  /** The document `create_page` writes into the page's `index.md`. */
  function SeedDocument(c: Codec, name: string, now: Timestamp): (r: Result<string, Error>)
    ensures r.Err? ==> r.error.TomlSer?
    ensures r.Ok? ==> StartsWith(r.value, Delimiter)
  {
    IntoDocument(c, SeedEntry(name, now))
  }

  // ---------------------------------------------------------------------
  // Writing a new file: `create_dir_all(dir)?`, `File::create_new(dir/file)?`,
  // the text computed with `?`, `write_all(text)?` -- the steps `create_page`
  // and `create_proj` share.

  /** Every step succeeds. */
  predicate NewFileWritten(fs: FileSystem, dir: Path, file: string, text: Result<string, Error>)
    requires '/' !in file
  {
    && fs.perform(CreateDirAll(dir)).Ok?
    && fs.perform(CreateNew(Push(dir, file))).Ok?
    && text.Ok?
    && fs.perform(WriteAll(Push(dir, file), text.value)).Ok?
  }

  /** The calls made: each one only once those before it have succeeded. */
  function NewFileEffects(fs: FileSystem, dir: Path, file: string, text: Result<string, Error>): (r: seq<Effect>)
    requires '/' !in file
    ensures 1 <= |r| <= 3 && r[0] == CreateDirAll(dir)
    ensures |r| == 1 <==> fs.perform(CreateDirAll(dir)).Err?
    ensures |r| >= 2 ==> r[1] == CreateNew(Push(dir, file))
    ensures |r| == 3 <==> fs.perform(CreateDirAll(dir)).Ok? && fs.perform(CreateNew(Push(dir, file))).Ok? && text.Ok?
    ensures |r| == 3 ==> r[2] == WriteAll(Push(dir, file), text.value)
  {
    var path := Push(dir, file);
    if fs.perform(CreateDirAll(dir)).Err? then [CreateDirAll(dir)]
    else if fs.perform(CreateNew(path)).Err? || text.Err? then [CreateDirAll(dir), CreateNew(path)]
    else [CreateDirAll(dir), CreateNew(path), WriteAll(path, text.value)]
  }

  /** The error reported: the first failing step's. */
  function NewFileError(fs: FileSystem, dir: Path, file: string, text: Result<string, Error>): Error
    requires '/' !in file
    requires !NewFileWritten(fs, dir, file, text)
  {
    var path := Push(dir, file);
    if fs.perform(CreateDirAll(dir)).Err? then fs.perform(CreateDirAll(dir)).error
    else if fs.perform(CreateNew(path)).Err? then fs.perform(CreateNew(path)).error
    else if text.Err? then text.error
    else fs.perform(WriteAll(path, text.value)).error
  }

  /** The manifest `create_proj` writes. */
  function SeedManifest(name: string): (m: Manifest)
    ensures m.site == name && m.description == HelloSite && m.theme == "" && m.renders == []
  {
    Manifest(name, HelloSite, "", [])
  }

  // ---------------------------------------------------------------------
  // The build pipeline

  /** The walk's item filter: a regular file named `index.md` no deeper than two levels. */
  predicate IsEntryFile(w: Walked) {
    w.depth <= MaxDepth && w.isFile && FileName(w.path) == IndexFile
  }

  /**
   * `flatten` (walk errors dropped), the two `filter`s and `into_path`:
   * the paths of the entry files, in walk order.
   */
  function EntryFiles(walk: seq<Result<Walked, Error>>): (r: seq<Path>)
    ensures |r| <= |walk|
    ensures forall p :: p in r <==>
              exists i :: 0 <= i < |walk| && walk[i].Ok? && IsEntryFile(walk[i].value) && walk[i].value.path == p
  {
    if walk == [] then []
    else
      var rest := EntryFiles(walk[1..]);
      assert forall i :: 1 <= i < |walk| ==> walk[i] == walk[1..][i - 1];
      if walk[0].Ok? && IsEntryFile(walk[0].value) then [walk[0].value.path] + rest else rest
  }

  /** Where an entry's rendering goes: `<output>/contents/<encode(date)>`. */
  function EntryOutput(out: Path, showDate: Timestamp -> string, date: Timestamp): (p: Path)
    ensures |out| + 1 <= |p| <= |out| + 2
    ensures IsPrefix(out + [ContentsDir], p)
    ensures showDate(date) != "" ==> |p| == |out| + 2 && FileName(p) == Encode(showDate(date))
  {
    Push(Push(out, ContentsDir), Encode(showDate(date)))
  }

  /**
   * `MarkdownEntryContext::try_new(&index, &index)`, then the output set to
   * `EntryOutput`: the file is read and parsed; any failure is an `Err`.
   */
  function ParseContext(fs: FileSystem, c: Codec, out: Path, showDate: Timestamp -> string, index: Path)
    : (r: Result<EntryContext, Error>)
    ensures fs.read(index).Err? ==> r == Err(fs.read(index).error)
    ensures fs.read(index).Ok? ==> (r.Ok? <==> WithContent(c, fs.read(index).value).Ok?)
    ensures r.Ok? ==> && r.value.index == index
                      && r.value.entry == WithContent(c, fs.read(index).value).value
                      && r.value.output == EntryOutput(out, showDate, r.value.entry.meta.date)
  {
    match fs.read(index)
    case Err(e) => Err(e)
    case Ok(text) =>
      match WithContent(c, text)
      case Err(e) => Err(e)
      case Ok(entry) => Ok(EntryContext(index, EntryOutput(out, showDate, entry.meta.date), entry))
  }

  /** `flat_map` over `Result`s: the `Ok` values in order, the errors dropped. */
  function Successes(rs: seq<Result<EntryContext, Error>>): (r: seq<EntryContext>)
    ensures |r| <= |rs|
    ensures forall x :: x in r <==> Ok(x) in rs
  {
    if rs == [] then []
    else
      var rest := Successes(rs[1..]);
      assert rs == [rs[0]] + rs[1..];
      match rs[0]
      case Ok(x) => [x] + rest
      case Err(_) => rest
  }

  /** Every entry file parsed, in walk order. */
  function ParseAll(fs: FileSystem, c: Codec, out: Path, showDate: Timestamp -> string, files: seq<Path>)
    : (rs: seq<Result<EntryContext, Error>>)
    ensures |rs| == |files|
    ensures forall i :: 0 <= i < |files| ==> rs[i] == ParseContext(fs, c, out, showDate, files[i])
  {
    seq(|files|, i requires 0 <= i < |files| => ParseContext(fs, c, out, showDate, files[i]))
  }

  /** The `flat_map` over the parse: entries that fail to read or parse are dropped silently. */
  function Contexts(fs: FileSystem, c: Codec, out: Path, showDate: Timestamp -> string, files: seq<Path>)
    : (r: seq<EntryContext>)
    ensures |r| <= |files|
    ensures forall x :: x in r <==>
              exists i :: 0 <= i < |files| && ParseContext(fs, c, out, showDate, files[i]) == Ok(x)
  {
    var rs := ParseAll(fs, c, out, showDate, files);
    assert forall x :: Ok(x) in rs <==> exists i :: 0 <= i < |rs| && rs[i] == Ok(x);
    Successes(rs)
  }

  /**
   * The walk filter keeps walk order and multiplicity: filtering a
   * concatenation filters each part, and one item gives its path or nothing.
   */
  lemma {:induction false} EntryFilesAppend(a: seq<Result<Walked, Error>>, b: seq<Result<Walked, Error>>)
    ensures EntryFiles(a + b) == EntryFiles(a) + EntryFiles(b)
  {
    if a == [] {
      assert a + b == b;
    } else {
      assert (a + b)[0] == a[0];
      assert (a + b)[1..] == a[1..] + b;
      EntryFilesAppend(a[1..], b);
    }
  }

  lemma EntryFilesOne(w: Result<Walked, Error>)
    ensures EntryFiles([w]) == if w.Ok? && IsEntryFile(w.value) then [w.value.path] else []
  {
  }

  /** `Successes` keeps order and multiplicity in the same way. */
  lemma {:induction false} SuccessesAppend(a: seq<Result<EntryContext, Error>>, b: seq<Result<EntryContext, Error>>)
    ensures Successes(a + b) == Successes(a) + Successes(b)
  {
    if a == [] {
      assert a + b == b;
    } else {
      assert (a + b)[0] == a[0];
      assert (a + b)[1..] == a[1..] + b;
      SuccessesAppend(a[1..], b);
    }
  }

  lemma SuccessesOne(x: Result<EntryContext, Error>)
    ensures Successes([x]) == if x.Ok? then [x.value] else []
  {
  }

  /**
   * One context per entry file that parses, in walk order: the contexts of
   * a concatenation are the contexts of each part, and one file gives its
   * context or nothing.
   */
  lemma ContextsAppend(fs: FileSystem, c: Codec, out: Path, showDate: Timestamp -> string, a: seq<Path>, b: seq<Path>)
    ensures Contexts(fs, c, out, showDate, a + b) == Contexts(fs, c, out, showDate, a) + Contexts(fs, c, out, showDate, b)
  {
    var ra, rb := ParseAll(fs, c, out, showDate, a), ParseAll(fs, c, out, showDate, b);
    assert ParseAll(fs, c, out, showDate, a + b) == ra + rb;
    SuccessesAppend(ra, rb);
  }

  lemma ContextsOne(fs: FileSystem, c: Codec, out: Path, showDate: Timestamp -> string, f: Path)
    ensures var x := ParseContext(fs, c, out, showDate, f);
            Contexts(fs, c, out, showDate, [f]) == if x.Ok? then [x.value] else []
  {
    var rs := ParseAll(fs, c, out, showDate, [f]);
    assert rs == [ParseContext(fs, c, out, showDate, f)];
    SuccessesOne(rs[0]);
  }

  /** How the output-directory setup ends: the `exists` query, the removal if needed, the creation. */
  function SetupResult(fs: FileSystem, out: Path): (r: Result<(), Error>)
    ensures fs.present(out).Err? ==> r == Err(fs.present(out).error)
    ensures fs.present(out) == Ok(true) && fs.perform(RemoveDirAll(out)).Err? ==>
              r == Err(fs.perform(RemoveDirAll(out)).error)
    ensures fs.present(out).Ok? && (fs.present(out).value ==> fs.perform(RemoveDirAll(out)).Ok?)
            && fs.perform(CreateDirAll(out)).Err? ==>
              r == Err(fs.perform(CreateDirAll(out)).error)
    ensures r.Ok? <==> && fs.present(out).Ok?
                       && (fs.present(out).value ==> fs.perform(RemoveDirAll(out)).Ok?)
                       && fs.perform(CreateDirAll(out)).Ok?
  {
    match fs.present(out)
    case Err(e) => Err(e)
    case Ok(present) =>
      if present && fs.perform(RemoveDirAll(out)).Err? then Err(fs.perform(RemoveDirAll(out)).error)
      else if fs.perform(CreateDirAll(out)).Err? then Err(fs.perform(CreateDirAll(out)).error)
      else Ok(())
  }

  /** The mutating calls the setup makes. */
  function SetupEffects(fs: FileSystem, out: Path): (r: seq<Effect>)
    ensures fs.present(out).Err? ==> r == []
    ensures fs.present(out) == Ok(false) ==> r == [CreateDirAll(out)]
    ensures fs.present(out) == Ok(true) ==>
              r == if fs.perform(RemoveDirAll(out)).Ok? then [RemoveDirAll(out), CreateDirAll(out)] else [RemoveDirAll(out)]
  {
    match fs.present(out)
    case Err(_) => []
    case Ok(present) =>
      if !present then [CreateDirAll(out)]
      else if fs.perform(RemoveDirAll(out)).Err? then [RemoveDirAll(out)]
      else [RemoveDirAll(out), CreateDirAll(out)]
  }

  // ---------------------------------------------------------------------
  // The project

  class Project {
    var manifest: Manifest
    /** The directory that holds `manifest.toml`. */
    var base: Path
    /** The output directory set by `set_output`, if any. */
    var output: Option<Path>

    constructor (manifest: Manifest, base: Path)
      ensures this.manifest == manifest && this.base == base && output == None
    {
      this.manifest := manifest;
      this.base := base;
      output := None;
    }

    /** `try_new`: read and decode the manifest; the base is the manifest's directory. */
    static method TryNew(fs: FileSystem, c: Codec, manifestPath: Path) returns (r: Result<Project, Error>)
      ensures fs.read(manifestPath).Err? ==> r.Err? && r.error == fs.read(manifestPath).error
      ensures fs.read(manifestPath).Ok? ==>
                var m := ManifestFromText(c, fs.read(manifestPath).value);
                && (r.Ok? <==> m.Ok?)
                && (r.Err? ==> r.error == m.error)
                && (r.Ok? ==> r.value.manifest == m.value)
      ensures r.Ok? ==> fresh(r.value) && r.value.base == Parent(manifestPath) && r.value.output == None
    {
      var base := Parent(manifestPath);
      match fs.read(manifestPath)
      case Err(e) => r := Err(e);
      case Ok(text) =>
        match ManifestFromText(c, text)
        case Err(e) => r := Err(e);
        case Ok(m) =>
          var p := new Project(m, base);
          r := Ok(p);
    }

    /** `path_src`: `<base>/src`. */
    function PathSrc(): (p: Path)
      reads this
      ensures |p| == |base| + 1 && IsPrefix(base, p) && FileName(p) == SrcDir
    {
      Push(base, SrcDir)
    }

    /** `path_output`: the directory set by `set_output`, else `<base>/output`. */
    function PathOutput(): (p: Path)
      reads this
      ensures output.Some? ==> p == output.value
      ensures output.None? ==> |p| == |base| + 1 && IsPrefix(base, p) && FileName(p) == OutputDir
    {
      match output
      case Some(o) => o
      case None => Push(base, OutputDir)
    }

    /** `set_output`: only the output changes. */
    method SetOutput(p: Path)
      modifies this
      ensures output == Some(p) && PathOutput() == p
      ensures manifest == old(manifest) && base == old(base) && PathSrc() == old(PathSrc())
    {
      output := Some(p);
    }

    /**
     * `create_page`: make `<src>/<encode(name)>`, create its `index.md`
     * (failing if it exists) and write the seed document into it.
     */
    method CreatePage(fs: FileSystem, c: Codec, now: Timestamp, name: string)
      returns (r: Result<Path, Error>, effects: seq<Effect>)
      ensures var page, doc := PagePath(PathSrc(), name), SeedDocument(c, name, now);
              && (r.Ok? <==> NewFileWritten(fs, page, IndexFile, doc))
              && (r.Ok? ==> r.value == page)
              && effects == NewFileEffects(fs, page, IndexFile, doc)
              && (r.Err? ==> r.error == NewFileError(fs, page, IndexFile, doc))
    {
      var page := PagePath(PathSrc(), name);
      var written;
      written, effects := WriteNewFile(fs, page, IndexFile, SeedDocument(c, name, now));
      r := if written.Ok? then Ok(page) else Err(written.error);
    }

    /**
     * `create_proj`: make the directory `encode(name)`, create its
     * `manifest.toml`, write the seed manifest into it and open the project.
     */
    static method CreateProj(fs: FileSystem, c: Codec, name: string)
      returns (r: Result<Project, Error>, effects: seq<Effect>)
      ensures var dir, text := ProjPath(name), ManifestToText(c, SeedManifest(name));
              var path := Push(dir, ManifestFile);
              && effects == NewFileEffects(fs, dir, ManifestFile, text)
              && (!NewFileWritten(fs, dir, ManifestFile, text) ==> r == Err(NewFileError(fs, dir, ManifestFile, text)))
              && (NewFileWritten(fs, dir, ManifestFile, text) && fs.read(path).Err? ==> r == Err(fs.read(path).error))
              && (NewFileWritten(fs, dir, ManifestFile, text) && fs.read(path).Ok? ==>
                    var m := ManifestFromText(c, fs.read(path).value);
                    && (r.Ok? <==> m.Ok?)
                    && (r.Err? ==> r.error == m.error)
                    && (r.Ok? ==> r.value.manifest == m.value))
              && (r.Ok? ==> fresh(r.value) && r.value.base == dir && r.value.output == None)
              && (Lawful(c) && NewFileWritten(fs, dir, ManifestFile, text) && fs.read(path) == Ok(text.value)
                  ==> r.Ok? && r.value.manifest == SeedManifest(name))
    {
      var dir := ProjPath(name);
      var text := ManifestToText(c, SeedManifest(name));
      var written;
      written, effects := WriteNewFile(fs, dir, ManifestFile, text);
      if written.Err? {
        return Err(written.error), effects;
      }
      var path := Push(dir, ManifestFile);
      if Lawful(c) && fs.read(path) == Ok(text.value) {
        ManifestTextRoundTrip(c, SeedManifest(name));
      }
      r := TryNew(fs, c, path);
    }

    /**
     * `build`: set up the output directory, walk `src`, parse the entry
     * files, and run the prepared render of each entry that parsed. The
     * renders' outcomes are returned here, but `build` itself ignores them:
     * it succeeds exactly when the setup does.
     */
    method Build(fs: FileSystem, c: Codec, showDate: Timestamp -> string, registry: RenderRegistry)
      returns (r: Result<(), Error>, effects: seq<Effect>, outcomes: seq<Outcome>)
      requires registry.Valid()
      modifies registry
      ensures registry.Valid()
      ensures r == SetupResult(fs, PathOutput())
      ensures effects == SetupEffects(fs, PathOutput())
      ensures var ctxs := Contexts(fs, c, PathOutput(), showDate, EntryFiles(fs.walk(PathSrc())));
              var used := if old(registry.seeded) then old(registry.renderers) else Builtins();
              && (r.Err? ==> outcomes == [])
              && (r.Ok? ==> |outcomes| == |ctxs| && forall i :: 0 <= i < |ctxs| ==> outcomes[i] == Dispatch(used, ctxs[i]))
              && (outcomes == [] ==> registry.renderers == old(registry.renderers) && registry.seeded == old(registry.seeded))
              && (outcomes != [] ==> registry.renderers == used && registry.seeded)
    {
      var out := PathOutput();
      outcomes := [];
      effects := [];
      var present := fs.present(out);
      if present.Err? {
        return Err(present.error), effects, outcomes;
      }
      if present.value {
        effects := effects + [RemoveDirAll(out)];
        var removed := fs.perform(RemoveDirAll(out));
        if removed.Err? {
          return Err(removed.error), effects, outcomes;
        }
      }
      effects := effects + [CreateDirAll(out)];
      var made := fs.perform(CreateDirAll(out));
      if made.Err? {
        return Err(made.error), effects, outcomes;
      }
      var ctxs := Contexts(fs, c, out, showDate, EntryFiles(fs.walk(PathSrc())));
      outcomes := RunAll(registry, ctxs);
      r := Ok(());
    }
  }

  /** The steps `create_page` and `create_proj` share, stopping at the first failure. */
  method WriteNewFile(fs: FileSystem, dir: Path, file: string, text: Result<string, Error>)
    returns (r: Result<(), Error>, effects: seq<Effect>)
    requires '/' !in file
    ensures r.Ok? <==> NewFileWritten(fs, dir, file, text)
    ensures effects == NewFileEffects(fs, dir, file, text)
    ensures r.Err? ==> r.error == NewFileError(fs, dir, file, text)
  {
    effects := [CreateDirAll(dir)];
    var made := fs.perform(CreateDirAll(dir));
    if made.Err? {
      return Err(made.error), effects;
    }
    var path := Push(dir, file);
    effects := effects + [CreateNew(path)];
    var created := fs.perform(CreateNew(path));
    if created.Err? {
      return Err(created.error), effects;
    }
    if text.Err? {
      return Err(text.error), effects;
    }
    effects := effects + [WriteAll(path, text.value)];
    var written := fs.perform(WriteAll(path, text.value));
    if written.Err? {
      return Err(written.error), effects;
    }
    r := Ok(());
  }

  /**
   * `join_all` over the prepared renders, one after the other: each run
   * looks its renderer up in the registry as seeded by the first run.
   */
  method RunAll(registry: RenderRegistry, ctxs: seq<EntryContext>) returns (outcomes: seq<Outcome>)
    requires registry.Valid()
    modifies registry
    ensures registry.Valid()
    ensures var used := if old(registry.seeded) then old(registry.renderers) else Builtins();
            && |outcomes| == |ctxs|
            && (forall i :: 0 <= i < |ctxs| ==> outcomes[i] == Dispatch(used, ctxs[i]))
            && (ctxs == [] ==> registry.renderers == old(registry.renderers) && registry.seeded == old(registry.seeded))
            && (ctxs != [] ==> registry.renderers == used && registry.seeded)
  {
    ghost var used := if registry.seeded then registry.renderers else Builtins();
    outcomes := [];
    var i := 0;
    while i < |ctxs|
      invariant 0 <= i <= |ctxs|
      invariant registry.Valid()
      invariant |outcomes| == i
      invariant forall j :: 0 <= j < i ==> outcomes[j] == Dispatch(used, ctxs[j])
      invariant i == 0 ==> registry.renderers == old(registry.renderers) && registry.seeded == old(registry.seeded)
      invariant i > 0 ==> registry.renderers == used && registry.seeded
    {
      var prepared := ToPreparedRender(ctxs[i]);
      var o := registry.RunPrepared(prepared.value);
      outcomes := outcomes + [o];
      i := i + 1;
    }
  }

  // ---------------------------------------------------------------------
  // Properties

  /** The default output directory and `src` are siblings: neither lies inside the other. */
  lemma DefaultOutputBesideSrc(base: Path)
    ensures !IsPrefix(Push(base, SrcDir), Push(base, OutputDir))
    ensures !IsPrefix(Push(base, OutputDir), Push(base, SrcDir))
  {
    assert Push(base, SrcDir)[|base|] == SrcDir != OutputDir == Push(base, OutputDir)[|base|];
  }

  /**
   * The `index.md` that `create_page` writes for a non-empty name lies two
   * levels below `src`, so the build's walk picks it up. The names `.` and
   * `..` are kept by the encoding and resolved by the operating system, to
   * `src` itself and to the base, so they are excluded.
   */
  lemma CreatedPageIsEntryFile(src: Path, name: string)
    requires name != "" && name != "." && name != ".."
    ensures var p := IndexPath(src, name);
            && |p| == |src| + 2 && IsPrefix(src, p)
            && IsEntryFile(Walked(p, |p| - |src|, true))
  {
    var page := PagePath(src, name);
    var p := IndexPath(src, name);
    assert |p| == |page| + 1;
    var e := Encode(name);
    assert page == src + [e];
    assert p == src + [e, IndexFile];
  }

  /** The seed page's description has no `<!-- more -->`. */
  lemma HelloPageHasNoMarker()
    ensures !Contains(HelloPage, MoreMarker)
  {
    assert '<' !in HelloPage;
    NotContainsByFirstChar(HelloPage, MoreMarker);
  }

  lemma HelloPageEnds()
    ensures |HelloPage| > 0 && HelloPage[0] == 'H' && HelloPage[|HelloPage| - 1] == '!'
  {
  }

  /** Trimming leaves the seed page's description as it is. */
  lemma HelloPageIsTrimmed()
    ensures Trim(HelloPage) == HelloPage
  {
    HelloPageEnds();
    assert IsTrimSlice(HelloPage, 0, |HelloPage|);
    TrimIsSlice(HelloPage, 0, |HelloPage|);
  }

  /**
   * The document `create_page` writes parses back: its title is the page
   * name, its renderer the default "page", its tags none, and its
   * description the seed text.
   */
  lemma SeedDocumentParses(c: Codec, name: string, now: Timestamp)
    requires Lawful(c)
    requires forall m :: MetaText(c, SeedMeta(name, now)) == Ok(m) ==> !Contains(m, Delimiter)
    ensures SeedDocument(c, name, now).Ok?
    ensures var r := WithContent(c, SeedDocument(c, name, now).value);
            && r.Ok?
            && r.value.meta == Meta(name, now, {}, DefaultRenderer)
            && r.value.description == HelloPage
  {
    HelloPageHasNoMarker();
    HelloPageIsTrimmed();
    DocumentRoundTrip(c, SeedEntry(name, now));
  }

  /** Two entries with the same date are rendered into the same directory. */
  lemma SameDateSameOutput(fs: FileSystem, c: Codec, out: Path, showDate: Timestamp -> string, i1: Path, i2: Path)
    requires ParseContext(fs, c, out, showDate, i1).Ok? && ParseContext(fs, c, out, showDate, i2).Ok?
    requires ParseContext(fs, c, out, showDate, i1).value.entry.meta.date
          == ParseContext(fs, c, out, showDate, i2).value.entry.meta.date
    ensures ParseContext(fs, c, out, showDate, i1).value.output == ParseContext(fs, c, out, showDate, i2).value.output
  {
  }
}
