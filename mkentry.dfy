/**
 * Markdown entries: a `+++`-delimited TOML front matter, a description ending
 * at the first `<!-- more -->`, and the rest of the document.
 *
 * The front matter is found the way the lazy regex `(?s)\+\+\+(.*?)\+\+\+`
 * finds it: the leftmost `+++`, then the nearest `+++` that starts at least
 * three characters later. The delimiters need not stand on their own lines.
 */
module MkEntry {
  import opened Wrappers
  import opened Text
  import opened Errors
  import opened Toml
  import opened Paths

  const Delimiter := "+++"
  const MoreMarker := "<!-- more -->"
  const DefaultRenderer := "page"

  datatype Meta = Meta(title: string, date: Timestamp, tag: set<string>, renderer: string)

  datatype Entry = Entry(meta: Meta, description: string, content: string)

  /** `MarkdownEntryContext`: the source file, the output location and the parsed entry. */
  datatype EntryContext = EntryContext(index: Path, output: Path, entry: Entry)

  /** `MarkdownMeta::default()` (derived): empty title and renderer, the epoch, no tags. */
  function DefaultMeta(): (m: Meta)
    ensures m.title == "" && m.renderer == "" && m.tag == {}
  {
    Meta("", Timestamp(0), {}, "")
  }

  // ---------------------------------------------------------------------
  // Front matter <-> TOML table

  /** Deserialising `MarkdownMeta`: `title` and `date` are required, `tag` and `renderer` defaulted. */
  function MetaFromTable(t: Table): (r: Result<Meta, Error>)
    ensures r.Err? ==> r.error.TomlDe?
    ensures r.Ok? <==> && "title" in t && t["title"].Str?
                       && "date" in t && t["date"].Datetime?
                       && ("tag" in t ==> t["tag"].StrArray? || t["tag"].StrSet?)
                       && ("renderer" in t ==> t["renderer"].Str?)
    ensures r.Ok? ==> t["title"] == Str(r.value.title) && t["date"] == Datetime(r.value.date)
    ensures r.Ok? && "renderer" !in t ==> r.value.renderer == DefaultRenderer
    ensures r.Ok? && "renderer" in t ==> t["renderer"] == Str(r.value.renderer)
    ensures r.Ok? && "tag" !in t ==> r.value.tag == {}
    ensures r.Ok? && "tag" in t ==> SameValue(StrSet(r.value.tag), t["tag"])
  {
    if "title" !in t then Err(TomlDe("missing field `title`"))
    else if !t["title"].Str? then Err(TomlDe("invalid type for `title`"))
    else if "date" !in t then Err(TomlDe("missing field `date`"))
    else if !t["date"].Datetime? then Err(TomlDe("invalid type for `date`"))
    else if "tag" in t && !(t["tag"].StrArray? || t["tag"].StrSet?) then Err(TomlDe("invalid type for `tag`"))
    else if "renderer" in t && !t["renderer"].Str? then Err(TomlDe("invalid type for `renderer`"))
    else
      var tag :=
        if "tag" !in t then {}
        else if t["tag"].StrSet? then t["tag"].members
        else set x | x in t["tag"].items;
      var renderer := if "renderer" in t then t["renderer"].s else DefaultRenderer;
      Ok(Meta(t["title"].s, t["date"].t, tag, renderer))
  }

  /** Serialising `MarkdownMeta`: an empty tag set or an empty renderer is skipped. */
  function MetaToTable(m: Meta): (t: Table)
    ensures "title" in t && "date" in t
    ensures "tag" in t <==> m.tag != {}
    ensures "renderer" in t <==> m.renderer != ""
    ensures t.Keys <= {"title", "date", "tag", "renderer"}
  {
    map["title" := Str(m.title), "date" := Datetime(m.date)]
    + (if m.tag != {} then map["tag" := StrSet(m.tag)] else map[])
    + (if m.renderer != "" then map["renderer" := Str(m.renderer)] else map[])
  }

  /** What a meta becomes once written and read back: an empty renderer turns into `"page"`. */
  function ReadBack(m: Meta): (r: Meta)
    ensures r.title == m.title && r.date == m.date && r.tag == m.tag
    ensures r.renderer == if m.renderer == "" then DefaultRenderer else m.renderer
  {
    m.(renderer := if m.renderer == "" then DefaultRenderer else m.renderer)
  }

  lemma MetaTableRoundTrip(m: Meta)
    ensures MetaFromTable(MetaToTable(m)) == Ok(ReadBack(m))
  {
  }

  /** Decoding a table read back from the serialiser gives what decoding the original gives. */
  lemma MetaFromSameTable(t: Table, u: Table)
    requires SameTable(t, u)
    ensures MetaFromTable(u) == MetaFromTable(t)
  {
    if "tag" in t && t["tag"].StrSet? {
      assert SameValue(t["tag"], u["tag"]);
    }
  }

  /** The front matter as TOML text: `toml::from_str`, failures surfacing as `TomlDe`. */
  function DecodeMeta(c: Codec, text: string): (r: Result<Meta, Error>)
    ensures r.Err? ==> r.error.TomlDe?
    ensures c.parse(text).Err? ==> r == Err(TomlDe(c.parse(text).error))
    ensures c.parse(text).Ok? ==> r == MetaFromTable(c.parse(text).value)
  {
    match c.parse(text)
    case Err(msg) => Err(TomlDe(msg))
    case Ok(t) => MetaFromTable(t)
  }

  /** `toml::to_string_pretty(&meta)` trimmed, failures surfacing as `TomlSer`. */
  function MetaText(c: Codec, m: Meta): (r: Result<string, Error>)
    ensures r.Err? ==> r.error.TomlSer?
    ensures r.Ok? ==> Trim(r.value) == r.value
  {
    match c.serialize(MetaToTable(m))
    case Err(msg) => Err(TomlSer(msg))
    case Ok(text) => TrimIdempotent(text); Ok(Trim(text))
  }

  /** Under a lawful codec the trimmed front matter decodes to the read-back meta. */
  lemma MetaTextRoundTrip(c: Codec, m: Meta)
    requires Lawful(c)
    ensures MetaText(c, m).Ok?
    ensures DecodeMeta(c, MetaText(c, m).value) == Ok(ReadBack(m))
  {
    var t := MetaToTable(m);
    assert c.serialize(t).Ok? && ReadsBack(c, t, Trim(c.serialize(t).value));
    MetaFromSameTable(t, c.parse(Trim(c.serialize(t).value)).value);
    MetaTableRoundTrip(m);
  }

  // ---------------------------------------------------------------------
  // Locating the front matter

  datatype Span = Span(start: nat, end: nat)

  /** `s[a..b]` matches `\+\+\+(.*?)\+\+\+` (dot matching newlines). */
  ghost predicate IsMetaMatch(s: string, a: int, b: int) {
    OccursAt(s, Delimiter, a) && a + 6 <= b && OccursAt(s, Delimiter, b - 3)
  }

  /** The match a leftmost-first regex engine reports: leftmost start, then the shortest. */
  ghost predicate IsLeftmostLazyMatch(s: string, a: int, b: int) {
    && IsMetaMatch(s, a, b)
    && forall a', b' :: IsMetaMatch(s, a', b') ==> a < a' || (a == a' && b <= b')
  }

  lemma LeftmostLazyMatchUnique(s: string, a: int, b: int, a': int, b': int)
    requires IsLeftmostLazyMatch(s, a, b) && IsLeftmostLazyMatch(s, a', b')
    ensures a == a' && b == b'
  {
  }

  /** The search below finds every leftmost-lazy match there is, hence the only one. */
  lemma FindMetaIsUnique(s: string)
    ensures forall a, b :: IsLeftmostLazyMatch(s, a, b) ==> FindMeta(s) == Some(Span(a, b))
  {
    forall a, b | IsLeftmostLazyMatch(s, a, b) ensures FindMeta(s) == Some(Span(a, b)) {
      var sp := FindMeta(s).value;
      LeftmostLazyMatchUnique(s, a, b, sp.start, sp.end);
    }
  }

  /** The text of capture group 1 of the match `s[a..b]`. */
  function Captured(s: string, a: int, b: int): string
    requires 0 <= a + 3 <= b - 3 <= |s|
  {
    s[a + 3..b - 3]
  }

  /** `s` with `s[a..b]` cut out. */
  function CutOut(s: string, a: int, b: int): string
    requires 0 <= a <= b <= |s|
  {
    s[..a] + s[b..]
  }

  /** The regex search for the front matter, done as two substring searches. */
  function FindMeta(s: string): (r: Option<Span>)
    ensures r.Some? ==> IsLeftmostLazyMatch(s, r.value.start, r.value.end)
    ensures r.None? ==> forall a, b :: !IsMetaMatch(s, a, b)
  {
    match IndexOf(s, Delimiter, 0)
    case None => None
    case Some(a) =>
      match IndexOf(s, Delimiter, a + 3)
      case None => None
      case Some(c) => Some(Span(a, c + 3))
  }

  /** `extract_meta`: decode the trimmed text between the delimiters of the first match. */
  function ExtractMeta(c: Codec, content: string): (r: Result<Meta, Error>)
    ensures (forall a, b :: !IsMetaMatch(content, a, b)) ==> r == Err(InvalidDataBlock)
    ensures forall a, b :: IsLeftmostLazyMatch(content, a, b) ==>
              r == DecodeMeta(c, Trim(Captured(content, a, b)))
  {
    match FindMeta(content)
    case None => Err(InvalidDataBlock)
    case Some(sp) =>
      FindMetaIsUnique(content);
      DecodeMeta(c, Trim(content[sp.start + 3..sp.end - 3]))
  }

  /** `remove_meta`: `Regex::replace` cuts out the first match and nothing else. */
  function RemoveMeta(content: string): (r: string)
    ensures (forall a, b :: !IsMetaMatch(content, a, b)) ==> r == content
    ensures forall a, b :: IsLeftmostLazyMatch(content, a, b) ==> r == CutOut(content, a, b)
  {
    match FindMeta(content)
    case None => content
    case Some(sp) =>
      FindMetaIsUnique(content);
      content[..sp.start] + content[sp.end..]
  }

  /**
   * The description: the trimmed text before the first `<!-- more -->`, or,
   * when there is no marker, the whole document untrimmed.
   */
  function Description(document: string): (d: string)
    ensures !Contains(document, MoreMarker) ==> d == document
    ensures forall i :: FirstOccurrenceFrom(document, MoreMarker, 0, i) ==> d == Trim(document[..i])
  {
    match IndexOf(document, MoreMarker, 0)
    case None => document
    case Some(i) =>
      assert forall j :: FirstOccurrenceFrom(document, MoreMarker, 0, j) ==> j == i;
      Trim(document[..i])
  }

  // ---------------------------------------------------------------------
  // Entries

  /** `MarkdownEntry::new`: an entry with the given meta and description and no content. */
  function NewEntry(meta: Meta, description: string): (e: Entry)
    ensures e.meta == meta && e.description == description && e.content == ""
  {
    Entry(meta, description, "")
  }

  /**
   * `MarkdownEntry::with_content`. The content keeps the description and the
   * marker: it is the whole document with the front matter cut out.
   */
  function WithContent(c: Codec, content: string): (r: Result<Entry, Error>)
    ensures !StartsWith(Trim(content), Delimiter) ==> r == Err(InvalidDataBlock)
    ensures (forall a, b :: !IsMetaMatch(content, a, b)) ==> r == Err(InvalidDataBlock)
    ensures forall a, b :: StartsWith(Trim(content), Delimiter) && IsLeftmostLazyMatch(content, a, b) ==>
              (var meta := DecodeMeta(c, Trim(Captured(content, a, b)));
               var document := CutOut(content, a, b);
               r == if meta.Err? then Err(meta.error) else Ok(Entry(meta.value, Description(document), document)))
  {
    if !StartsWith(Trim(content), Delimiter) then Err(InvalidDataBlock)
    else
      match ExtractMeta(c, content)
      case Err(e) => Err(e)
      case Ok(meta) =>
        var document := RemoveMeta(content);
        Ok(Entry(meta, Description(document), document))
  }

  /** A text shorter than two delimiters holds no front-matter match. */
  lemma TooShortForMatch(s: string)
    requires |s| < 2 * |Delimiter|
    ensures forall a, b :: !IsMetaMatch(s, a, b)
  {
  }

  /** An opening `+++` with no second, non-overlapping `+++` is an invalid data block. */
  lemma UnterminatedExamples(c: Codec)
    ensures WithContent(c, "+++ a") == Err(InvalidDataBlock)
    ensures WithContent(c, "++++") == Err(InvalidDataBlock)
  {
    TooShortForMatch("+++ a");
    TooShortForMatch("++++");
  }

  /**
   * `with_content` only accepts input whose trimmed text starts with `+++`:
   * then the match starts exactly where the leading whitespace ends.
   */
  lemma OpeningDelimiterLeads(content: string, a: int, b: int)
    requires StartsWith(Trim(content), Delimiter) && IsLeftmostLazyMatch(content, a, b)
    ensures a == TrimOffset(content)
    ensures forall k :: 0 <= k < a ==> IsWhitespace(content[k])
  {
    var i := TrimOffset(content);
    var t := Trim(content);
    assert content[i..i + 3] == t[..3];
    assert OccursAt(content, Delimiter, i);
    forall k | 0 <= k < i ensures !OccursAt(content, Delimiter, k) {
      if k + 3 <= |content| {
        assert content[k..k + 3][0] == content[k];
      }
    }
    assert IsMetaMatch(content, i, b);
  }

  /** The body `into_document` writes after the front matter. */
  function DocumentTail(e: Entry): string {
    "\n\n" + (e.description + ("\n" + (MoreMarker + ("\n\n" + e.content))))
  }

  /** `into_document`: front matter, description, marker and content joined by blank lines. */
  function IntoDocument(c: Codec, e: Entry): (r: Result<string, Error>)
    ensures r.Err? <==> c.serialize(MetaToTable(e.meta)).Err?
    ensures r.Err? ==> r.error.TomlSer?
    ensures r.Ok? ==> StartsWith(r.value, Delimiter)
  {
    match MetaText(c, e.meta)
    case Err(err) => Err(err)
    case Ok(m) => Ok(Delimiter + ("\n" + (m + ("\n" + (Delimiter + DocumentTail(e))))))
  }

  /** A document `into_document` produces always passes the `+++` check of `with_content`. */
  lemma IntoDocumentPassesCheck(c: Codec, e: Entry)
    requires IntoDocument(c, e).Ok?
    ensures StartsWith(Trim(IntoDocument(c, e).value), Delimiter)
  {
    DocumentStartsWithDelimiter(IntoDocument(c, e).value);
  }

  // ---------------------------------------------------------------------
  // Round trip
  //
  // The lemmas below take the positions they talk about as parameters, so
  // that every fact is stated with the same arithmetic terms it is used with.

  /** The search result once both delimiters have been located. */
  lemma FindMetaAt(s: string, a: nat, c: nat, b: nat)
    requires IndexOf(s, Delimiter, 0) == Some(a) && IndexOf(s, Delimiter, a + 3) == Some(c) && b == c + 3
    ensures FindMeta(s) == Some(Span(a, b))
  {
  }

  /** Extraction once the search has found the match `content[a..b]`. */
  lemma ExtractAt(c: Codec, content: string, a: nat, b: nat, inner: string)
    requires FindMeta(content) == Some(Span(a, b))
    requires a + 3 <= b - 3 <= |content| && content[a + 3..b - 3] == inner
    ensures ExtractMeta(c, content) == DecodeMeta(c, Trim(inner))
  {
  }

  /** Removal once the search has found the match `content[a..b]`. */
  lemma RemoveAt(content: string, a: nat, b: nat, document: string)
    requires FindMeta(content) == Some(Span(a, b))
    requires a <= b <= |content| && content[..a] + content[b..] == document
    ensures RemoveMeta(content) == document
  {
  }

  /** The description once the first marker is known to sit at `at`, right after `pre`. */
  lemma DescriptionAt(document: string, at: nat, pre: string)
    requires IndexOf(document, MoreMarker, 0) == Some(at)
    requires at <= |document| && document[..at] == pre
    ensures Description(document) == Trim(pre)
  {
  }

  /** Leading whitespace, a front matter block `m` on its own lines, and a tail. */
  function Framed(w: string, m: string, tail: string): string {
    w + (Delimiter + ("\n" + (m + ("\n" + (Delimiter + tail)))))
  }

  /** Whitespace followed by `+++`: the first `+++` is the one after the whitespace. */
  lemma OpeningAt(doc: string, w: string, rest: string)
    requires AllWhitespace(w) && doc == w + rest && |rest| >= 3 && rest[..3] == Delimiter
    ensures IndexOf(doc, Delimiter, 0) == Some(|w|)
  {
    forall k | 0 <= k < |w| ensures !OccursAt(doc, Delimiter, k) {
      assert doc[k..k + 3][0] == doc[k] == w[k];
    }
    assert doc[|w|..|w| + 3] == rest[..3];
    IndexOfIs(doc, Delimiter, 0, |w|);
  }

  lemma FramedAfterOpening(w: string, m: string, tail: string)
    ensures |w| + 3 <= |Framed(w, m, tail)|
    ensures Framed(w, m, tail)[|w| + 3..] == "\n" + (m + ("\n" + (Delimiter + tail)))
  {
  }

  /** The first search finds the `+++` after the whitespace. */
  lemma FramedOpening(w: string, m: string, tail: string)
    requires AllWhitespace(w)
    ensures IndexOf(Framed(w, m, tail), Delimiter, 0) == Some(|w|)
  {
    OpeningAt(Framed(w, m, tail), w, Delimiter + ("\n" + (m + ("\n" + (Delimiter + tail)))));
  }

  /** The second search finds the `+++` that closes `m`. */
  lemma FramedClosing(w: string, m: string, tail: string, from: nat, at: nat)
    requires !Contains(m, Delimiter)
    requires from == |w| + 3 && at == from + |m| + 2
    ensures IndexOf(Framed(w, m, tail), Delimiter, from) == Some(at)
  {
    FramedAfterOpening(w, m, tail);
    FirstOccurrenceAfterNewline(Framed(w, m, tail), from, "\n", m, Delimiter, tail, at);
  }

  /** So the front-matter match spans the two delimiters and what lies between. */
  lemma FramedMatch(w: string, m: string, tail: string)
    requires AllWhitespace(w) && !Contains(m, Delimiter)
    ensures FindMeta(Framed(w, m, tail)) == Some(Span(|w|, |w| + |m| + 8))
  {
    FramedOpening(w, m, tail);
    FramedClosing(w, m, tail, |w| + 3, |w| + 3 + |m| + 2);
    FindMetaAt(Framed(w, m, tail), |w|, |w| + |m| + 5, |w| + |m| + 8);
  }

  /** What the match captures and what cutting it out leaves. */
  lemma FramedSlices(w: string, m: string, tail: string)
    ensures var doc := Framed(w, m, tail);
            && |w| + |m| + 8 <= |doc|
            && doc[|w| + 3..|w| + |m| + 8 - 3] == "\n" + (m + "\n")
            && doc[..|w|] + doc[|w| + |m| + 8..] == w + tail
  {
    var doc := Framed(w, m, tail);
    var rest := Delimiter + ("\n" + (m + ("\n" + (Delimiter + tail))));
    assert doc[..|w|] == w;
    assert doc[|w|..] == rest;
    var inner := "\n" + (m + ("\n" + (Delimiter + tail)));
    assert doc[|w| + 3..] == rest[3..] == inner;
    assert inner[..|m| + 2] == "\n" + (m + "\n");
    assert inner[|m| + 5..] == tail;
  }

  lemma ExtractFramed(c: Codec, w: string, m: string, tail: string)
    requires AllWhitespace(w) && !Contains(m, Delimiter)
    ensures ExtractMeta(c, Framed(w, m, tail)) == DecodeMeta(c, Trim(m))
  {
    FramedMatch(w, m, tail);
    FramedSlices(w, m, tail);
    ExtractAt(c, Framed(w, m, tail), |w|, |w| + |m| + 8, "\n" + (m + "\n"));
    TrimLines(m);
  }

  /** The newlines around the front matter go when it is trimmed. */
  lemma TrimLines(m: string)
    ensures Trim("\n" + (m + "\n")) == Trim(m)
  {
    assert AllWhitespace("\n");
    TrimPadded("\n", m, "\n");
  }

  lemma RemoveFramed(w: string, m: string, tail: string)
    requires AllWhitespace(w) && !Contains(m, Delimiter)
    ensures RemoveMeta(Framed(w, m, tail)) == w + tail
  {
    FramedMatch(w, m, tail);
    FramedSlices(w, m, tail);
    RemoveAt(Framed(w, m, tail), |w|, |w| + |m| + 8, w + tail);
  }

  /** A text that starts with `+++` still does once trimmed. */
  lemma DocumentStartsWithDelimiter(doc: string)
    requires StartsWith(doc, Delimiter)
    ensures StartsWith(Trim(doc), Delimiter)
  {
    TrimKeepsSolidPrefix(doc, Delimiter);
  }

  /** Trimming the framed document leaves text that starts with `+++`. */
  lemma FramedStartsWithDelimiter(w: string, m: string, tail: string)
    requires AllWhitespace(w)
    ensures StartsWith(Trim(Framed(w, m, tail)), Delimiter)
  {
    var rest := Delimiter + ("\n" + (m + ("\n" + (Delimiter + tail))));
    assert rest + "" == rest;
    assert rest[..3] == Delimiter;
    DocumentStartsWithDelimiter(rest);
    TrimPadded(w, rest, "");
  }

  /**
   * A document made of whitespace, a front matter `m` without `+++` inside,
   * and any tail parses to the decoded `m`; the content is the document
   * with the front matter cut out, leading whitespace included.
   */
  lemma ParseFramed(c: Codec, w: string, m: string, tail: string)
    requires AllWhitespace(w) && !Contains(m, Delimiter)
    ensures var meta := DecodeMeta(c, Trim(m));
            WithContent(c, Framed(w, m, tail))
              == if meta.Err? then Err(meta.error) else Ok(Entry(meta.value, Description(w + tail), w + tail))
  {
    FramedStartsWithDelimiter(w, m, tail);
    ExtractFramed(c, w, m, tail);
    RemoveFramed(w, m, tail);
  }

  /** Without a marker in the description, the first marker is the one `into_document` wrote. */
  lemma TailDescription(e: Entry)
    requires !Contains(e.description, MoreMarker)
    ensures Description(DocumentTail(e)) == Trim(e.description)
  {
    var d := e.description;
    var pre := "\n\n" + (d + "\n");
    TailMarker(e);
    DescriptionAt(DocumentTail(e), |d| + 3, pre);
    TrimBlankLines(d);
  }

  lemma TrimBlankLines(d: string)
    ensures Trim("\n\n" + (d + "\n")) == Trim(d)
  {
    assert AllWhitespace("\n\n") && AllWhitespace("\n");
    TrimPadded("\n\n", d, "\n");
  }

  /** The marker `into_document` wrote follows the description and its newline. */
  lemma TailMarker(e: Entry)
    requires !Contains(e.description, MoreMarker)
    ensures var d := e.description;
            && |d| + 3 <= |DocumentTail(e)|
            && IndexOf(DocumentTail(e), MoreMarker, 0) == Some(|d| + 3)
            && DocumentTail(e)[..|d| + 3] == "\n\n" + (d + "\n")
  {
    var tail := DocumentTail(e);
    var d := e.description;
    FirstOccurrenceAfterNewline(tail, 0, "\n\n", d, MoreMarker, "\n\n" + e.content, |d| + 3);
    assert tail[..|d| + 3] == "\n\n" + (d + "\n");
  }

  /**
   * `with_content` after `into_document`: the meta comes back as read back
   * (empty renderer -> "page"), the description comes back trimmed, and the
   * content is the whole body after the front matter, description and marker
   * included. It needs front-matter text without `+++` and a description
   * without the marker.
   */
  lemma DocumentRoundTrip(c: Codec, e: Entry)
    requires Lawful(c)
    requires forall m :: MetaText(c, e.meta) == Ok(m) ==> !Contains(m, Delimiter)
    requires !Contains(e.description, MoreMarker)
    ensures IntoDocument(c, e).Ok?
    ensures WithContent(c, IntoDocument(c, e).value)
         == Ok(Entry(ReadBack(e.meta), Trim(e.description), DocumentTail(e)))
  {
    MetaTextRoundTrip(c, e.meta);
    var m := MetaText(c, e.meta).value;
    assert IntoDocument(c, e).value == Framed("", m, DocumentTail(e));
    ParseFramed(c, "", m, DocumentTail(e));
    assert "" + DocumentTail(e) == DocumentTail(e);
    TailDescription(e);
  }

  /** What follows the front matter in the unit test's second document. */
  const ExampleTail := "\n\n" + ("test1" + ("\n\n" + (MoreMarker + "\n")))

  /** The unit test's first document: the bare front matter parses. */
  lemma BareFrontMatterExample(c: Codec, meta: Meta)
    requires Lawful(c)
    requires forall m :: MetaText(c, meta) == Ok(m) ==> !Contains(m, Delimiter)
    ensures MetaText(c, meta).Ok?
    ensures WithContent(c, Framed("", MetaText(c, meta).value, "")).Ok?
  {
    MetaTextRoundTrip(c, meta);
    ParseFramed(c, "", MetaText(c, meta).value, "");
  }

  /**
   * The unit test's second document: with a newline before the front matter
   * and "test1" and the marker after it, the description is "test1".
   */
  lemma DescriptionExample(c: Codec, meta: Meta)
    requires Lawful(c)
    requires forall m :: MetaText(c, meta) == Ok(m) ==> !Contains(m, Delimiter)
    ensures MetaText(c, meta).Ok?
    ensures var r := WithContent(c, Framed("\n", MetaText(c, meta).value, ExampleTail));
            r.Ok? && r.value.description == "test1"
  {
    MetaTextRoundTrip(c, meta);
    ParseFramed(c, "\n", MetaText(c, meta).value, ExampleTail);
    ExampleDescription();
  }

  lemma ExampleDocument()
    ensures "\n" + ExampleTail == "\n\n\n" + ("test1\n" + ("\n" + (MoreMarker + "\n")))
  {
  }

  lemma ExamplePrefix()
    ensures |"\n" + ExampleTail| >= 10
    ensures ("\n" + ExampleTail)[..10] == "\n\n\n" + ("test1" + "\n\n")
  {
  }

  lemma ExampleTrim()
    ensures Trim("\n\n\n" + ("test1" + "\n\n")) == "test1"
  {
    TrimPadded("\n\n\n", "test1", "\n\n");
    assert IsTrimSlice("test1", 0, 5);
    TrimIsSlice("test1", 0, 5);
  }

  lemma ExampleDescription()
    ensures Description("\n" + ExampleTail) == "test1"
  {
    NotContainsByFirstChar("test1\n", MoreMarker);
    ExampleDocument();
    FirstOccurrenceAfterNewline("\n" + ExampleTail, 0, "\n\n\n", "test1\n", MoreMarker, "\n", 10);
    ExamplePrefix();
    DescriptionAt("\n" + ExampleTail, 10, "\n\n\n" + ("test1" + "\n\n"));
    ExampleTrim();
  }
}
