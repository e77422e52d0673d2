/**
 * The built-in format readers: their construction, which fails when the
 * optional library a format needs is missing, and `read`, which rejects a
 * missing stream and otherwise wraps the parser's output into an
 * IgnoreCaseDict. Parsing itself belongs to the format libraries: here the
 * stream is represented by the plain mapping its library would produce.
 */
module Readers {
  import opened Results
  import opened Structures

  datatype Format = Ini | Json | Toml | Yaml

  /**
   * Which optional parsing libraries are importable when a reader is built
   * (the `toml` and `yaml` modules the readers module holds, or None).
   * INI and JSON rely on the standard library and are always available.
   */
  datatype Libraries = Libraries(toml: bool, yaml: bool)

  /** A constructed reader; it keeps no state between calls. */
  datatype Reader = Reader(format: Format)

  /** The content of a stream: the top-level mapping its format's library parses it into. */
  type Document = seq<Item>

  /** `IniReader()`, `JsonReader()`, `TomlReader()`, `YamlReader()`, given the libraries present now. */
  function NewReader(format: Format, libs: Libraries): (r: Outcome<Reader>)
    ensures r.Ok? <==> (format == Toml ==> libs.toml) && (format == Yaml ==> libs.yaml)
    ensures r.Ok? ==> r.value.format == format
    ensures r.Err? ==> r.error == LibraryRequiredError(if format == Toml then "toml" else "yaml")
  {
    match format
    case Toml => if libs.toml then Ok(Reader(Toml)) else Err(LibraryRequiredError("toml"))
    case Yaml => if libs.yaml then Ok(Reader(Yaml)) else Err(LibraryRequiredError("yaml"))
    case _ => Ok(Reader(format))
  }

  /** `reader.read(stream)`: None is refused; a stream yields its content as an IgnoreCaseDict. */
  function Read(reader: Reader, stream: Option<Document>): (r: Outcome<IgnoreCaseDict>)
    ensures stream.None? <==> r == Err(ValueError)
    ensures r.Ok? ==> r.value.Valid()
  {
    match stream
    case None => Err(ValueError)
    case Some(doc) => Ok(WrapItems(doc))
  }

  /** Every reader that can be built refuses a None stream with ValueError. */
  lemma ReadNoneFails(format: Format, libs: Libraries)
    requires NewReader(format, libs).Ok?
    ensures Read(NewReader(format, libs).value, None) == Err(ValueError)
  {
  }

  /**
   * What `read` returns holds the document's content under every casing of
   * its keys: a lookup finds the wrapped value of the last item whose key
   * equals the given one up to case, and nothing when there is none.
   */
  lemma ReadKeepsContent(reader: Reader, doc: Document, key: string)
    ensures Read(reader, Some(doc)).Ok?
    ensures Read(reader, Some(doc)).value.Get(key) == WrapFound(PlainGet(doc, key))
  {
    WrapItemsGet(doc, key);
  }

  /**
   * A chained lookup in what `read` returns, `get(section).get(key)`, finds
   * the scalar the document holds under that section and key, whatever the
   * casing of either.
   */
  lemma ReadNestedScalar(reader: Reader, doc: Document, section: string, items: seq<Item>, key: string, text: string)
    requires PlainGet(doc, section) == Some(PMap(items))
    requires PlainGet(items, key) == Some(PStr(text))
    ensures Read(reader, Some(doc)).value.Get(section).Some?
    ensures Read(reader, Some(doc)).value.Get(section).value.Section?
    ensures Read(reader, Some(doc)).value.Get(section).value.dict.Get(key) == Some(Str(text))
  {
    ReadKeepsContent(reader, doc, section);
    WrapItemsGet(items, key);
  }

  /** The document every reader is given: a `database` section with a host and a port. */
  const Sample: Document :=
    [Item("database", PMap([Item("host", PStr("localhost")), Item("port", PStr("1234"))]))]

  /** The section the sample's `database` key holds once read. */
  const SampleSection: IgnoreCaseDict :=
    IgnoreCaseDict(map["host" := Str("localhost"), "port" := Str("1234")])

  /**
   * Reading the sample gives exactly `{'database': {'host': 'localhost', 'port': '1234'}}`,
   * and `get('Database')` and then `get('Host')` find the lower-case entries.
   */
  lemma ReadSample(reader: Reader)
    ensures Read(reader, Some(Sample)) == Ok(IgnoreCaseDict(map["database" := Section(SampleSection)]))
    ensures Read(reader, Some(Sample)).value.Get("Database") == Some(Section(SampleSection))
    ensures SampleSection.Get("Host") == Some(Str("localhost"))
  {
    var hostItems := [Item("host", PStr("localhost"))];
    assert Fold("host") == "host" && Fold("port") == "port" && Fold("database") == "database";
    assert Fold("Host") == "host" && Fold("Database") == "database";
    assert WrapItems(Sample[0].value.items) == SampleSection by {
      assert Sample[0].value.items[..1] == hostItems;
      assert hostItems[..0] == [];
    }
  }
}
