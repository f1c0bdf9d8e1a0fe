/**
 * The project manifest (`manifest.toml`) and its serde rules: `site` is
 * required, `description` and `theme` default to "", `renders` to the empty
 * list, and an empty `theme` or `renders` is left out when written.
 */
module Manifests {
  import opened Wrappers
  import opened Errors
  import opened Toml

  datatype Manifest = Manifest(site: string, description: string, theme: string, renders: seq<string>)

  /** A string field: absent gives `default`, or an error when there is none. */
  function StringField(t: Table, key: string, default: Option<string>): (r: Result<string, Error>)
    ensures key !in t ==> (if default.Some? then r == Ok(default.value) else r.Err? && r.error.TomlDe?)
    ensures key in t ==> (if t[key].Str? then r == Ok(t[key].s) else r.Err? && r.error.TomlDe?)
  {
    if key !in t then
      if default.Some? then Ok(default.value) else Err(TomlDe("missing field `" + key + "`"))
    else if t[key].Str? then Ok(t[key].s)
    else Err(TomlDe("invalid type for `" + key + "`"))
  }

  /** Deserialising a `Manifest` from a parsed table. */
  function ManifestFromTable(t: Table): (r: Result<Manifest, Error>)
    ensures r.Ok? <==> && "site" in t && t["site"].Str?
                       && ("description" in t ==> t["description"].Str?)
                       && ("theme" in t ==> t["theme"].Str?)
                       && ("renders" in t ==> t["renders"].StrArray?)
    ensures "site" !in t ==> r.Err? && r.error.TomlDe?
    ensures r.Ok? ==> "site" in t && t["site"] == Str(r.value.site)
    ensures r.Ok? ==> if "description" in t then t["description"] == Str(r.value.description) else r.value.description == ""
    ensures r.Ok? ==> if "theme" in t then t["theme"] == Str(r.value.theme) else r.value.theme == ""
    ensures r.Ok? ==> if "renders" in t then t["renders"] == StrArray(r.value.renders) else r.value.renders == []
    ensures r.Err? ==> r.error.TomlDe?
  {
    var site := StringField(t, "site", None);
    var description := StringField(t, "description", Some(""));
    var theme := StringField(t, "theme", Some(""));
    if site.Err? then Err(site.error)
    else if description.Err? then Err(description.error)
    else if theme.Err? then Err(theme.error)
    else if "renders" !in t then Ok(Manifest(site.value, description.value, theme.value, []))
    else if t["renders"].StrArray? then Ok(Manifest(site.value, description.value, theme.value, t["renders"].items))
    else Err(TomlDe("invalid type for `renders`"))
  }

  /** Serialising a `Manifest`: `site` and `description` always, `theme` and `renders` when non-empty. */
  function ManifestToTable(m: Manifest): (t: Table)
    ensures "site" in t && "description" in t
    ensures "theme" in t <==> m.theme != ""
    ensures "renders" in t <==> m.renders != []
    ensures t.Keys <= {"site", "description", "theme", "renders"}
    ensures HasNoSets(t)
  {
    map["site" := Str(m.site), "description" := Str(m.description)]
    + (if m.theme != "" then map["theme" := Str(m.theme)] else map[])
    + (if m.renders != [] then map["renders" := StrArray(m.renders)] else map[])
  }

  /** A manifest that gives only its site decodes with every other field at its default. */
  lemma SiteOnlyManifest(site: string)
    ensures ManifestFromTable(map["site" := Str(site)]) == Ok(Manifest(site, "", "", []))
  {
  }

  /** Decoding what was encoded gives back the same manifest, defaults included. */
  lemma ManifestTableRoundTrip(m: Manifest)
    ensures ManifestFromTable(ManifestToTable(m)) == Ok(m)
  {
  }

  /** `TryFrom<String> for Manifest`: the TOML decode, errors surfacing as `TomlDe`. */
  function ManifestFromText(c: Codec, text: string): (r: Result<Manifest, Error>)
    ensures r.Err? ==> r.error.TomlDe?
    ensures c.parse(text).Err? ==> r == Err(TomlDe(c.parse(text).error))
    ensures c.parse(text).Ok? ==> r == ManifestFromTable(c.parse(text).value)
  {
    match c.parse(text)
    case Err(msg) => Err(TomlDe(msg))
    case Ok(t) => ManifestFromTable(t)
  }

  /** `toml::to_string_pretty(&manifest)`, its failure surfacing as `TomlSer`. */
  function ManifestToText(c: Codec, m: Manifest): (r: Result<string, Error>)
    ensures r.Err? ==> r.error.TomlSer?
  {
    match c.serialize(ManifestToTable(m))
    case Err(msg) => Err(TomlSer(msg))
    case Ok(text) => Ok(text)
  }

  /** Writing a manifest out and reading the text back gives the same manifest. */
  lemma ManifestTextRoundTrip(c: Codec, m: Manifest)
    requires Lawful(c)
    ensures ManifestToText(c, m).Ok?
    ensures ManifestFromText(c, ManifestToText(c, m).value) == Ok(m)
  {
    var t := ManifestToTable(m);
    assert c.serialize(t).Ok? && ReadsBack(c, t, c.serialize(t).value);
    SameTableWithoutSets(t, c.parse(c.serialize(t).value).value);
    ManifestTableRoundTrip(m);
  }
}
