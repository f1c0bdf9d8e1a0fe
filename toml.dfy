/**
 * The TOML layer, kept abstract: a document is a table from keys to values,
 * and the `toml` crate's `from_str` / `to_string_pretty` are a pair of
 * functions over such tables supplied by the caller. What the model relies on
 * is written down once, as `Lawful`.
 */
module Toml {
  import opened Wrappers
  import opened Text

  /**
   * A `chrono::DateTime<Local>`. Its offset is always the machine's local one,
   * so the instant identifies it.
   */
  datatype Timestamp = Timestamp(epochNanos: int)

  datatype Value =
    | Str(s: string)
    | StrArray(items: seq<string>)
    | StrSet(members: set<string>)   // a set handed to the serialiser; it picks the element order
    | Datetime(t: Timestamp)

  type Table = map<string, Value>

  /** `w` is what reading back the serialisation of `v` may give. */
  predicate SameValue(v: Value, w: Value) {
    match v
    case StrSet(m) => w == v || (w.StrArray? && (set x | x in w.items) == m)
    case _ => w == v
  }

  ghost predicate SameTable(t: Table, u: Table) {
    t.Keys == u.Keys && forall k :: k in t ==> SameValue(t[k], u[k])
  }

  predicate HasNoSets(t: Table) {
    forall k :: k in t ==> !t[k].StrSet?
  }

  /** Without sets, reading back gives the very same table. */
  lemma SameTableWithoutSets(t: Table, u: Table)
    requires HasNoSets(t) && SameTable(t, u)
    ensures u == t
  {
    assert forall k :: k in t ==> u[k] == t[k];
  }

  /** `toml::from_str` (its error message on failure) and `toml::to_string_pretty`. */
  datatype Codec = Codec(parse: string -> Result<Table, string>, serialize: Table -> Result<string, string>)

  ghost predicate ReadsBack(c: Codec, t: Table, text: string) {
    c.parse(text).Ok? && SameTable(t, c.parse(text).value)
  }

  /**
   * The serialiser accepts every table, and parsing its output, trimmed or
   * not, gives the table back (sets as arrays).
   */
  ghost predicate Lawful(c: Codec) {
    forall t :: c.serialize(t).Ok? && ReadsBack(c, t, c.serialize(t).value) && ReadsBack(c, t, Trim(c.serialize(t).value))
  }
}
