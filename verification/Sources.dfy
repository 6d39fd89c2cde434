/**
 * The bounded scan of a structured tool result for public source references.
 * Recognising URLs in text (`find`) and normalising a public one (`public`)
 * are parameters.
 */
module Sources {
  import opened Common
  import opened Text

  const SOURCE_LIMIT: nat := 64
  const SCAN_BYTES: nat := 256 * 1024
  const SCAN_NODES: nat := 8192
  const SCAN_DEPTH: nat := 64

  datatype Json = Object(fields: seq<Field>) | Array(values: seq<Json>) | Str(text: string) | Other

  datatype Field = Field(key: string, value: Json)

  type Title = Option<string>

  datatype Source = Source(url: string, title: Title)

  /** The two recognisers the scan is given. */
  datatype Recogniser = Recogniser(find: string -> seq<string>, public: string -> Option<string>)

  // ---- the reference walk ----

  function Get(fields: seq<Field>, key: string): Option<Json>
  {
    if fields == [] then None else if fields[0].key == key then Some(fields[0].value) else Get(fields[1..], key)
  }

  /** The title for the members of an object: its own, or else the inherited one. */
  function TitleOf(fields: seq<Field>, inherited: Title): Title
  {
    var own := if Get(fields, "title").Some? then Get(fields, "title") else Get(fields, "name");
    if own.Some? && own.value.Str? && Trim(own.value.text) != "" then
      Some(own.value.text[..if |own.value.text| < 512 then |own.value.text| else 512])
    else inherited
  }

  predicate IsUrlKey(key: string)
  {
    key == "url" || key == "uri" || key == "link" || key == "href" || key == "source"
  }

  function OwnSource(field: Field, title: Title, web: Recogniser): seq<Source>
  {
    if IsUrlKey(field.key) && field.value.Str? && web.public(field.value.text).Some?
    then [Source(web.public(field.value.text).value, title)] else []
  }

  /** The explicit references of an object, in the order in which they are met: from the last field to the first. */
  function OwnSources(fields: seq<Field>, title: Title, web: Recogniser): seq<Source>
  {
    if fields == [] then [] else OwnSources(fields[1..], title, web) + OwnSource(fields[0], title, web)
  }

  function Mentioned(candidates: seq<string>, title: Title, web: Recogniser): seq<Source>
  {
    if candidates == [] then []
    else (if web.public(candidates[0]).Some? then [Source(web.public(candidates[0]).value, title)] else [])
         + Mentioned(candidates[1..], title, web)
  }

  /** References given in a URL field, and references mentioned in text. */
  datatype Kind = Explicit | Mention

  /** All references of one kind in a tree, in the order in which the scan meets them. */
  function Walk(v: Json, title: Title, kind: Kind, web: Recogniser): seq<Source>
    decreases v
  {
    match v
    case Object(fields) =>
      (if kind.Explicit? then OwnSources(fields, TitleOf(fields, title), web) else [])
      + WalkFields(fields, TitleOf(fields, title), kind, web)
    case Array(values) => WalkValues(values, title, kind, web)
    case Str(text) => if kind.Mention? then Mentioned(web.find(text), title, web) else []
    case Other => []
  }

  function WalkFields(fields: seq<Field>, title: Title, kind: Kind, web: Recogniser): seq<Source>
    decreases fields
  {
    if fields == [] then [] else Walk(fields[0].value, title, kind, web) + WalkFields(fields[1..], title, kind, web)
  }

  function WalkValues(values: seq<Json>, title: Title, kind: Kind, web: Recogniser): seq<Source>
    decreases values
  {
    if values == [] then [] else Walk(values[0], title, kind, web) + WalkValues(values[1..], title, kind, web)
  }

  // ---- measures of a tree ----

  function Utf8Length(text: string): nat
  {
    if text == "" then 0 else Utf8Length(text[..|text| - 1]) + Utf8Width(text[|text| - 1])
  }

  /** The nodes of a tree, its depth, and the bytes of its strings. */
  datatype Measure = Measure(nodes: nat, depth: nat, bytes: nat)

  function Beside(a: Measure, b: Measure): Measure
  {
    Measure(a.nodes + b.nodes, if a.depth < b.depth then b.depth else a.depth, a.bytes + b.bytes)
  }

  function Below(a: Measure): Measure
  {
    Measure(a.nodes + 1, a.depth + 1, a.bytes)
  }

  function Measured(v: Json): Measure
    decreases v
  {
    match v
    case Object(fields) => Below(MeasuredFields(fields))
    case Array(values) => Below(MeasuredValues(values))
    case Str(text) => Measure(1, 1, Utf8Length(text))
    case Other => Measure(1, 1, 0)
  }

  function MeasuredFields(fields: seq<Field>): Measure
    decreases fields
  {
    if fields == [] then Measure(0, 0, 0) else Beside(Measured(fields[0].value), MeasuredFields(fields[1..]))
  }

  function MeasuredValues(values: seq<Json>): Measure
    decreases values
  {
    if values == [] then Measure(0, 0, 0) else Beside(Measured(values[0]), MeasuredValues(values[1..]))
  }

  predicate IsWithinLimits(v: Json)
  {
    var m := Measured(v);
    m.nodes <= SCAN_NODES && m.depth <= SCAN_DEPTH && m.bytes <= SCAN_BYTES
  }
}
