/**
 * The configuration entries the adapter hands to the framework: one `KeyValue` per load
 * or change event, keyed by the file name, with the format taken from the name's extension.
 */
module KeyValues {
  import opened GoStrings
  import opened Polaris

  /** The framework's key-value record: key, raw bytes and format name. */
  datatype KeyValue = KeyValue(key: string, value: seq<byte>, format: string)

  /**
   * The format of a file: its extension with the leading dot removed,
   * `strings.TrimPrefix(filepath.Ext(name), ".")`.
   */
  function Format(name: string): (f: string)
    ensures Ext(name) == [] ==> f == []
    ensures Ext(name) != [] ==> Ext(name) == "." + f
  {
    TrimPrefix(Ext(name), ".")
  }

  /** The one-entry result that both loading and a change event produce for a file. */
  function Entries(name: string, content: seq<byte>): (kvs: seq<KeyValue>)
    ensures |kvs| == 1
    ensures kvs[0].key == name && kvs[0].value == content && kvs[0].format == Format(name)
  {
    [KeyValue(name, content, Format(name))]
  }

  /** A name ending in a dot and a dot-free, separator-free tail has that tail as its format. */
  lemma FormatOfSplit(stem: string, ext: string)
    requires '.' !in ext && Separator !in ext
    ensures Format(stem + "." + ext) == ext
  {
    ExtOfSplit(stem, ext);
  }

  /** The format is empty whenever the final path element has no dot. */
  lemma FormatWithoutDot(name: string)
    requires '.' !in FinalElement(name)
    ensures Format(name) == []
  {
  }

  /** A non-empty format is the tail after the last dot of the final element, so it holds no dot. */
  lemma FormatIsTailAfterLastDot(name: string)
    requires Format(name) != []
    ensures '.' !in Format(name) && Separator !in Format(name)
    ensures name == name[..|name| - |Format(name)| - 1] + "." + Format(name)
  {
  }

  /** "config.yaml" has format "yaml", and "archive.tar.gz" has format "gz": the last dot wins. */
  lemma FormatOfDottedNames()
    ensures Format("config.yaml") == "yaml"
    ensures Format("archive.tar.gz") == "gz"
  {
    assert "config" + "." + "yaml" == "config.yaml";
    FormatOfSplit("config", "yaml");
    assert "archive.tar" + "." + "gz" == "archive.tar.gz";
    FormatOfSplit("archive.tar", "gz");
  }

  /** "config", "conf.d/app" and "config." all have the empty format. */
  lemma FormatOfUndottedNames()
    ensures Format("config") == ""
    ensures Format("conf.d/app") == ""
    ensures Format("config.") == ""
  {
  }
}
