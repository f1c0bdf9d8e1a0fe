# moxide core, modelled in Dafny

moxide is a static-site generator. A project is a directory holding a
`manifest.toml` and a `src` tree. Every page in the tree is a directory
with an `index.md`. That file opens with a TOML front-matter block between
two `+++` delimiters, usually on their own lines. The description follows,
ending at the first `<!-- more -->` marker. The build empties the output
directory, walks `src`, and parses every `index.md` into an entry
context. It then hands each context to the renderer that the entry's
front matter names, looked up in a process-wide registry.

The model covers four parts:

- The markdown entry (`mkentry.dfy`): the front-matter metadata with its
  serde defaults and skip rules, and `with_content`. That is the
  `starts_with("+++")` check on the trimmed text, the lazy
  `(?s)\+\+\+(.*?)\+\+\+` match, the cut-out document and the description
  split. It also covers `into_document` and the round trip between the two.
- The manifest (`manifest.dfy`): fields, defaults, and the TOML round trip.
- The render registry (`render.dfy`): a class whose `renderers` map is
  seeded on first access with `page` and `bundle`. `register` extends it.
  The prepared render looks up its renderer only when it runs.
- The project (`proj.dfy`): a class with `manifest`, `base` and `output`.
  It models `try_new`, `path_src`, `path_output`, `set_output`,
  `create_page`, `create_proj`, and `build` with its directory walk and
  parse pipeline.

Supporting modules:

- `text.dfy`: `str::trim` over Unicode White_Space, `starts_with`, and a
  leftmost substring search.
- `urlencoding.dfy`: `urlencoding::encode`, modelled as UTF-8 plus percent
  escapes, with its decoding partner.
- `paths.dfy`: `PathBuf::push`, `pop` and `file_name` on component lists.
- `toml.dfy`: the TOML codec as an abstract `Codec`. The law `Lawful`
  states what the round-trip lemmas assume of it: serialising never fails,
  and parsing the serialised text, trimmed or not, gives back the same
  table, except that a set of strings may come back as an array of them in
  any order.

Filesystem calls are answered by a `FileSystem` value passed in by the
caller. Each method returns the trace of the mutating calls it made, so
contracts can speak about what would be written, created or removed.

Behaviour of the code that the model keeps as it is:

- When there is no `<!-- more -->` marker, the description is the whole
  cut-out document, untrimmed (`src/mkentry/mod.rs:84-88`).
- An entry's content is everything outside the front-matter match, so it
  still holds the description and the marker.
- `Error` in `src/error.rs` has no `RenderNotFound` variant, yet
  `src/render/mod.rs:95` builds one. The model adds that variant.
- A renderer's own error is passed through unchanged. There is no
  separate render-failure error.
- `build` ignores the render outcomes and returns `Ok(())` once the output
  directory is set up, unless a renderer panics (see "## Left out"). The
  model returns the outcomes beside the result, so the contract can say
  what each render did.
- Entries that fail to read or parse are dropped silently by the
  `flat_map`.

## Model

| member | source | states |
|---|---|---|
| Text.AsciiWhitespace | src/mkentry/mod.rs:75 | on ASCII, `char::is_whitespace` holds exactly for space, tab, line feed, vertical tab, form feed and carriage return |
| Text.StartsWithIndexwise | src/mkentry/mod.rs:77 | `starts_with` holds exactly when the text is at least as long as the prefix and agrees with it at every position |
| Text.Trim | src/mkentry/mod.rs:75 | the result is the slice of the input that starts where its leading whitespace ends |
| Text.TrimSlice | src/mkentry/mod.rs:75 | what trimming keeps has only whitespace on both sides of it and a non-whitespace character at each end |
| Text.TrimIsSlice | src/mkentry/mod.rs:75 | any slice with that property is exactly what trimming keeps, so the trim is unique |
| Text.TrimIdempotent | src/mkentry/mod.rs:75 | trimming twice equals trimming once |
| Text.TrimPadded | src/mkentry/mod.rs:126 | whitespace added on either side of a text does not change its trim |
| Text.IndexOf | src/mkentry/mod.rs:85 | the result is the leftmost occurrence of the pattern at or after the start; None means there is no occurrence at all |
| Text.FirstOccurrenceAfterNewline | src/mkentry/mod.rs:85 | the search finds the pattern right after a newline when nothing before it can start the pattern |
| UrlEncoding.Encode | src/proj/mod.rs:69 | every output character is unreserved or `%`; the output has no `/` and is at least as long as the input |
| UrlEncoding.EncodeRoundTrip | src/proj/mod.rs:69 | percent-decoding the encoding gives back the UTF-8 bytes of the name, so the encoding loses nothing |
| UrlEncoding.DecodeEncodedBytes | src/proj/mod.rs:69 | decoding the escapes of a byte sequence followed by any text yields those bytes, then the text's decoding |
| UrlEncoding.EncodeUnreservedIsIdentity | src/proj/mod.rs:69 | a name made only of unreserved characters is kept as it is |
| UrlEncoding.EncodeSlash | src/proj/mod.rs:77-81 | a `/` in a name is escaped, so the page is a single path component |
| Paths.Push | src/proj/mod.rs:45 | pushing a component extends the path by exactly that component; pushing an empty name leaves the path unchanged |
| Paths.FileName | src/proj/mod.rs:175 | `file_name` is the last component of a non-empty path |
| Paths.Parent | src/proj/mod.rs:31-32 | `pop` drops exactly the last component, and does nothing on an empty path |
| Manifests.StringField | src/manifest.rs:3-25 | a missing key falls back to the serde default or fails with a TOML decode error; a non-string value is a decode error |
| Manifests.ManifestFromTable | src/manifest.rs:3-25 | decoding succeeds exactly when `site` is a string and each of `description`, `theme`, `renders` is either absent or of its type; missing ones default to empty; every field read matches the table; failures are TOML decode errors |
| Manifests.ManifestToTable | src/manifest.rs:3-17 | `site` and `description` are always written; `theme` and `renders` are skipped exactly when empty |
| Manifests.SiteOnlyManifest | src/manifest.rs:7-25 | a manifest table holding only `site` decodes with an empty description, an empty theme and no renders |
| Manifests.ManifestTableRoundTrip | src/manifest.rs:3-25 | reading back the table of a manifest gives the same manifest |
| Manifests.ManifestFromText | src/manifest.rs:27-33 | a parse failure becomes `TomlDe`; otherwise the table is read as above |
| Manifests.ManifestToText | src/proj/mod.rs:143-148 | serialisation fails only with `TomlSer` |
| Manifests.ManifestTextRoundTrip | src/manifest.rs:27-33 | with a lawful codec, the text of a manifest parses back to the same manifest |
| MkEntry.DefaultMeta | src/mkentry/mod.rs:13-25 | the derived default has an empty title, no tags and an empty renderer |
| MkEntry.MetaFromTable | src/mkentry/mod.rs:13-29 | `title` and `date` are required; a missing `renderer` becomes "page" and missing `tag` becomes empty; present fields are read as stored |
| MkEntry.MetaToTable | src/mkentry/mod.rs:13-25 | `title` and `date` are always written; `tag` and `renderer` are skipped exactly when empty |
| MkEntry.ReadBack | src/mkentry/mod.rs:22-29 | what a meta turns into after serialising and reading back: unchanged, except that an empty renderer becomes "page" |
| MkEntry.MetaTableRoundTrip | src/mkentry/mod.rs:13-29 | reading back the table of a meta gives `ReadBack` of it |
| MkEntry.MetaFromSameTable | src/mkentry/mod.rs:18-20 | tables equal up to the order of the tag array read the same meta |
| MkEntry.DecodeMeta | src/mkentry/mod.rs:129 | a parse failure becomes `TomlDe`; otherwise the table is read as above |
| MkEntry.MetaText | src/mkentry/mod.rs:99 | the serialised front matter is already trimmed; failure is `TomlSer` |
| MkEntry.MetaTextRoundTrip | src/mkentry/mod.rs:98-130 | with a lawful codec, the trimmed text of a meta decodes to `ReadBack` of it |
| MkEntry.LeftmostLazyMatchUnique | src/mkentry/mod.rs:122 | the leftmost lazy match of the `+++` pattern is unique |
| MkEntry.FindMetaIsUnique | src/mkentry/mod.rs:122-126 | the match search returns that unique match |
| MkEntry.FindMeta | src/mkentry/mod.rs:122-126 | a found span is the leftmost lazy match; no span means the text holds no match at all |
| MkEntry.TooShortForMatch | src/mkentry/mod.rs:122 | a text shorter than two delimiters holds no match |
| MkEntry.ExtractMeta | src/mkentry/mod.rs:121-130 | no match gives `InvalidDataBlock`; otherwise the trimmed capture is decoded |
| MkEntry.RemoveMeta | src/mkentry/mod.rs:116-119 | no match leaves the text as it is; otherwise exactly the matched span is cut out |
| MkEntry.Description | src/mkentry/mod.rs:84-88 | the trimmed text before the first marker; without a marker, the whole document untrimmed |
| MkEntry.NewEntry | src/mkentry/mod.rs:63-72 | the entry keeps the meta and the description, and its content is empty |
| MkEntry.WithContent | src/mkentry/mod.rs:74-96 | fails with `InvalidDataBlock` unless the trimmed text starts with `+++` and a match exists; otherwise gives the decoded meta, or its error, with the cut-out document and its description |
| MkEntry.UnterminatedExamples | src/mkentry/mod.rs:74-96 | `+++ a` and `++++` pass the opening check but have no closing delimiter, so both are `InvalidDataBlock` |
| MkEntry.OpeningDelimiterLeads | src/mkentry/mod.rs:75-80 | when the opening check passes, the match starts exactly where the trimmed text starts, with only whitespace before it |
| MkEntry.IntoDocument | src/mkentry/mod.rs:98-114 | fails exactly when serialising the meta fails, and then with `TomlSer`; a document starts with `+++` |
| MkEntry.IntoDocumentPassesCheck | src/mkentry/mod.rs:98-114 | every document written passes `with_content`'s opening check |
| MkEntry.FramedMatch | src/mkentry/mod.rs:122 | in whitespace, `+++`, newline, meta, newline, `+++`, tail, where the meta has no `+++`, the match spans exactly the front-matter block |
| MkEntry.ExtractFramed | src/mkentry/mod.rs:121-130 | such a document's meta is its trimmed front-matter text, decoded |
| MkEntry.RemoveFramed | src/mkentry/mod.rs:116-119 | cutting out the front matter leaves the leading whitespace followed by the tail |
| MkEntry.ParseFramed | src/mkentry/mod.rs:74-96 | `with_content` on such a document gives the decoded meta, and as content the leading whitespace followed by the tail, with that content's description |
| MkEntry.TailDescription | src/mkentry/mod.rs:84-88 | the description read from a written document's tail is the entry's description, trimmed |
| MkEntry.DocumentRoundTrip | src/mkentry/mod.rs:74-114 | with a lawful codec, reading a written document gives `ReadBack` of the meta, the trimmed description, and the tail after the front matter as content |
| MkEntry.BareFrontMatterExample | src/mkentry/mod.rs:157-171 | a document that is only the front-matter block parses |
| MkEntry.DescriptionExample | src/mkentry/mod.rs:173-188 | the test's second document parses with description `test1` |
| MkEntry.ExampleDescription | src/mkentry/mod.rs:183-188 | the description of the test's cut-out document is `test1` |
| Render.Run | src/render/page.rs:13-22 | the page renderer succeeds; the bundle renderer is unimplemented; a custom renderer's result is passed through |
| Render.Builtins | src/render/mod.rs:44-54 | the seed map holds exactly `page` and `bundle`, bound to their renderers |
| Render.Dispatch | src/render/mod.rs:83-97 | an unknown name fails with `RenderNotFound` carrying that name; a known one runs its renderer |
| Render.ToPreparedRender | src/render/mod.rs:80-100 | always succeeds and keeps the context; nothing is looked up yet |
| Render.RenderRegistry.constructor | src/render/mod.rs:28-36 | the registry starts unseeded and empty |
| Render.RenderRegistry.Access | src/render/mod.rs:39-57 | the first access installs the built-ins; later accesses change nothing |
| Render.RenderRegistry.Register | src/render/mod.rs:59-70 | seeds if needed, then binds the key, overwriting; the built-in names stay present |
| Render.RenderRegistry.Fetch | src/render/mod.rs:72-74 | an exact-key lookup: Some of the bound renderer exactly when the key is present |
| Render.RenderRegistry.RunPrepared | src/render/mod.rs:83-97 | seeds if needed, then dispatches on the map as it is at run time |
| Render.FreshRegistryBuiltins | src/render/mod.rs:39-57 | on a fresh registry, `page` renders and `bundle` is unimplemented |
| Render.UnknownRenderer | src/render/mod.rs:91-96 | a name that is neither built-in fails with `RenderNotFound` of that name |
| Render.RegisteredLateIsUsed | src/render/mod.rs:83-97 | a renderer registered after preparing and before running is the one that runs, even over a built-in |
| Render.PageSurvivesRegistration | src/render/mod.rs:59-70 | registering under another key leaves `page` rendering |
| Proj.PagePath | src/proj/mod.rs:77-81 | a page directory is one level below `src`, named by the encoded page name |
| Proj.IndexPath | src/proj/mod.rs:88-92 | the index file is `index.md` directly inside the page directory: one component longer, with the page directory as its prefix |
| Proj.ProjPath | src/proj/mod.rs:128 | the project directory is the single relative component of the encoded name |
| Proj.SeedMeta | src/proj/mod.rs:95-100 | the seed meta is titled by the page name, dated now, with no tags and an empty renderer |
| Proj.SeedEntry | src/proj/mod.rs:94-102 | the seed entry has the seed meta, the hello description and no content |
| Proj.SeedDocument | src/proj/mod.rs:94-104 | the seed document fails only with `TomlSer` and otherwise starts with `+++` |
| Proj.NewFileEffects | src/proj/mod.rs:82-105 | the calls are, in order, creating the directory, creating the new file inside it, and writing the text into it; each is made exactly when every step before it succeeded |
| Proj.SeedManifest | src/proj/mod.rs:143-148 | the seed manifest has the site name, the hello description, and an empty theme and renders |
| Proj.EntryFiles | src/proj/mod.rs:170-176 | the walk's successful items that are files named `index.md` at most two levels deep, and no others |
| Proj.EntryFilesAppend | src/proj/mod.rs:170-176 | filtering keeps walk order and multiplicity: a concatenated walk gives the concatenated entry files |
| Proj.EntryOutput | src/proj/mod.rs:185-187 | an entry's output directory is `contents/<encoded date>` below the output directory |
| Proj.ParseContext | src/proj/mod.rs:183-189 | a read error is passed through; otherwise the entry parses, is indexed by its path and gets its date's output directory |
| Proj.Successes | src/proj/mod.rs:183 | the `Ok` values of a list of results and nothing else, never more of them than results |
| Proj.ParseAll | src/proj/mod.rs:183-190 | one parse result per entry file, in walk order |
| Proj.Contexts | src/proj/mod.rs:183-190 | the contexts are exactly the entry files that read and parse |
| Proj.SuccessesAppend | src/proj/mod.rs:183 | the `Ok` values of concatenated results are the concatenation of each part's, so order and number are kept |
| Proj.ContextsAppend | src/proj/mod.rs:183-190 | the contexts of concatenated file lists are the concatenation of each part's, in walk order |
| Proj.ContextsOne | src/proj/mod.rs:183-190 | one file gives exactly its context when it parses, and nothing otherwise |
| Proj.SetupResult | src/proj/mod.rs:157-163 | the setup succeeds exactly when the existence query, any removal and the creation all succeed; otherwise it returns the error of the first call that failed |
| Proj.SetupEffects | src/proj/mod.rs:157-163 | the output is removed only if it exists, then created, stopping at the first failure |
| Proj.Project.constructor | src/proj/mod.rs:36-40 | a new project has no output override |
| Proj.Project.TryNew | src/proj/mod.rs:27-41 | the base is the manifest's parent; read and decode errors are passed through; on success the manifest is the decoded one |
| Proj.Project.PathSrc | src/proj/mod.rs:43-47 | `src` lies directly under the base |
| Proj.Project.PathOutput | src/proj/mod.rs:56-62 | the override if set, else `output` directly under the base |
| Proj.Project.SetOutput | src/proj/mod.rs:49-54 | sets the override and changes nothing else |
| Proj.WriteNewFile | src/proj/mod.rs:82-105 | succeeds exactly when every step succeeds; otherwise it fails with the first failing step's error; the calls it makes are those `NewFileEffects` gives |
| Proj.Project.CreatePage | src/proj/mod.rs:64-112 | writes the seed document into `index.md` of the page directory: it returns the page directory exactly when every step succeeds, and otherwise the first failing step's error |
| Proj.Project.CreateProj | src/proj/mod.rs:114-152 | writes the seed manifest into `manifest.toml` of the project directory; any failing step's error is returned; afterwards `try_new`'s read and decode results are passed through; with a lawful codec and a filesystem that reads back what was written, the project opens with the seed manifest |
| Proj.Project.Build | src/proj/mod.rs:156-204 | returns the setup result; renders only after a successful setup, one outcome per parsed entry, each the dispatch on the seeded registry |
| Proj.RunAll | src/proj/mod.rs:198-203 | one outcome per context, in order, each dispatched on the registry as seeded by the first run |
| Proj.DefaultOutputBesideSrc | src/proj/mod.rs:43-62 | the default output directory and `src` are siblings, so removing the output never touches the sources |
| Proj.CreatedPageIsEntryFile | src/proj/mod.rs:77-92 | the index of a page whose name is not empty, `.` or `..` lies two levels below `src` and passes the build's walk filter |
| Proj.HelloPageHasNoMarker | src/proj/mod.rs:101 | the seed description holds no `<!-- more -->` |
| Proj.HelloPageIsTrimmed | src/proj/mod.rs:101 | the seed description is unchanged by trimming |
| Proj.SeedDocumentParses | src/proj/mod.rs:94-104 | the seed document `create_page` writes parses back with its name as title, the default renderer, no tags and the seed description |
| Proj.SameDateSameOutput | src/proj/mod.rs:185-188 | two entries with the same date render into the same directory |

## Left out

- Filesystem I/O is not a store. `read_to_string`, `exists`, the create,
  remove and write calls, and the directory walk are answered by the
  `FileSystem` parameter, and a read does not see earlier writes unless
  the caller's oracle says so. File handles are left out, and so are
  partial writes.
- `Utc::now()` is the `now` parameter. The `Display` form of a date, which
  names the output directory, is the `showDate` parameter. Time zones and
  date arithmetic are left out.
- The `toml` crate is an abstract `Codec`. The law `Lawful` is assumed
  only where a lemma requires it. The text
  of TOML error messages is not modelled.
- The regex engine is not modelled in general. Only the lazy `+++` pattern
  is, as the leftmost-shortest match its semantics define.
- The process-wide `OnceLock<RwLock<…>>` is one `RenderRegistry` object
  passed to `build`. Locking, `unsafe` access and concurrency are left out.
- `join_all` over the prepared renders is run sequentially in list order.
  No renderer here depends on the order.
- `BundleRender::render` is `todo!()`. The model gives it the outcome
  `Unimplemented` instead of a panic. In the program the panic unwinds
  out of `join_all`, so a `build` with a `bundle` entry never returns,
  while the model's `Build` returns `Ok(())` with that outcome listed.
- `PageRender::render` only logs, so it is modelled as success. Logging
  (`trace!`, `info!`) and terminal colouring are left out.
- Paths are lists of components with no normalisation. A page called `.`
  or `..` encodes to itself and is pushed as a component, as the code
  does.
- Proj.CreatedPageIsEntryFile: excludes the page names `.` and `..`. The
  operating system resolves them: `src/./index.md` is `src/index.md`, one
  level below `src`, and `src/../index.md` is `<base>/index.md`, outside
  `src`, which the build's walk never reaches.
- The walk's order and its `max_depth` are taken from the walk oracle,
  which gives each item's depth. Symlink handling is left out.
- MkEntry.DocumentRoundTrip: needs front-matter text without `+++` and a
  description without `<!-- more -->`. When either is present, the
  written document parses differently. The source makes no promise for
  those cases.
- Proj.SeedDocumentParses: needs the serialised seed meta to hold no
  `+++`. A page name containing `+++` breaks the round trip.
- `src/main.rs`, `src/builder/mod.rs`, `src/util.rs` and the older
  `src/proj.rs` are not part of this model. They are the command line, a
  builder stub, helpers and a superseded copy of the project type.
