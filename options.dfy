/**
 * The options of a Polaris configuration source: functional options applied in order
 * to a set of defaults, then validated.
 */
module Options {
  import opened Wrappers
  import opened Polaris

  /** `WithConfigNamespace`, `WithFileGroup` and `WithFileName`, each setting one field. */
  datatype ConfigOption =
    | WithConfigNamespace(namespace: string)
    | WithFileGroup(fileGroup: string)
    | WithFileName(fileName: string)

  /** The options record; `configFile` caches the handle of the last successful load. */
  datatype ConfigOptions = ConfigOptions(namespace: string, fileGroup: string, fileName: string, configFile: Option<ConfigFile>)

  /** Namespace "default", empty group and name, nothing loaded. */
  const Defaults := ConfigOptions("default", "", "", None)

  /** What calling one option closure does to the record: it sets its own field and nothing else. */
  function Apply(o: ConfigOptions, opt: ConfigOption): (r: ConfigOptions)
    ensures forall f :: Get(r, f) == if Sets(opt, f).Some? then Sets(opt, f).value else Get(o, f)
    ensures r.configFile == o.configFile
  {
    match opt
    case WithConfigNamespace(n) => o.(namespace := n)
    case WithFileGroup(g) => o.(fileGroup := g)
    case WithFileName(f) => o.(fileName := f)
  }

  /** The record after applying `opts`, first to last, to the defaults. */
  function Folded(opts: seq<ConfigOption>): (o: ConfigOptions)
    ensures o.configFile == None
    ensures opts == [] ==> o == Defaults
  {
    if opts == [] then Defaults else Apply(Folded(opts[..|opts| - 1]), opts[|opts| - 1])
  }

  /** Lines 53-61 of `Config`: start from the defaults and apply every option in order. */
  method ApplyOptions(opts: seq<ConfigOption>) returns (o: ConfigOptions)
    ensures o == Folded(opts)
  {
    o := Defaults;
    for i := 0 to |opts|
      invariant o == Folded(opts[..i])
    {
      assert opts[..i + 1][..i] == opts[..i];
      o := Apply(o, opts[i]);
    }
    assert opts[..|opts|] == opts;
  }

  /** The three fields an option can set. */
  datatype Field = Namespace | FileGroup | FileName

  function Get(o: ConfigOptions, f: Field): (v: string) {
    match f
    case Namespace => o.namespace
    case FileGroup => o.fileGroup
    case FileName => o.fileName
  }

  /** The value `opt` assigns to field `f`, if it assigns that field at all. */
  function Sets(opt: ConfigOption, f: Field): (v: Option<string>) {
    match (opt, f)
    case (WithConfigNamespace(n), Namespace) => Some(n)
    case (WithFileGroup(g), FileGroup) => Some(g)
    case (WithFileName(n), FileName) => Some(n)
    case _ => None
  }

  /**
   * The value of the last option in `opts` that sets `f`, found by scanning from the
   * front: an independent description of "the last writer wins".
   */
  function LastSet(opts: seq<ConfigOption>, f: Field): (v: Option<string>) {
    if opts == [] then None
    else
      match LastSet(opts[1..], f)
      case Some(v) => Some(v)
      case None => Sets(opts[0], f)
  }

  lemma {:induction false} LastSetSnoc(opts: seq<ConfigOption>, x: ConfigOption, f: Field)
    ensures LastSet(opts + [x], f) == if Sets(x, f).Some? then Sets(x, f) else LastSet(opts, f)
  {
    if opts == [] {
      assert [x][1..] == [];
    } else {
      assert (opts + [x])[1..] == opts[1..] + [x];
      LastSetSnoc(opts[1..], x, f);
    }
  }

  /**
   * Options are applied in order: each field ends up with the value of the last option
   * that sets it, or its default when no option does.
   */
  lemma {:induction false} FoldedIsLastWriter(opts: seq<ConfigOption>, f: Field)
    ensures Get(Folded(opts), f) == match LastSet(opts, f) case Some(v) => v case None => Get(Defaults, f)
  {
    if opts != [] {
      var init, x := opts[..|opts| - 1], opts[|opts| - 1];
      assert opts == init + [x];
      FoldedIsLastWriter(init, f);
      LastSetSnoc(init, x, f);
    }
  }

  /** Why `Config` rejects its options. */
  datatype ConfigError = FileGroupInvalid | FileNameInvalid {
    /** The text of the error `Config` returns. */
    function Message(): (m: string)
      ensures m == "fileGroup invalid" <==> this == FileGroupInvalid
      ensures m == "fileName invalid" <==> this == FileNameInvalid
    {
      match this
      case FileGroupInvalid => "fileGroup invalid"
      case FileNameInvalid => "fileName invalid"
    }
  }

  /** Lines 63-69 of `Config`: an empty group is rejected first, then an empty name. */
  function Validate(o: ConfigOptions): (r: Result<ConfigOptions, ConfigError>)
    ensures r.Success? <==> o.fileGroup != "" && o.fileName != ""
    ensures r.Success? ==> r.value == o
    ensures r == Failure(FileGroupInvalid) <==> o.fileGroup == ""
    ensures r == Failure(FileNameInvalid) <==> o.fileGroup != "" && o.fileName == ""
  {
    if o.fileGroup == "" then Failure(FileGroupInvalid)
    else if o.fileName == "" then Failure(FileNameInvalid)
    else Success(o)
  }

  /**
   * The verdict of `Config` in terms of the options given: it fails on the group unless
   * some option sets a non-empty group last, whatever the name; otherwise it fails on the
   * name unless some option sets a non-empty name last. With no options the namespace is
   * "default".
   */
  lemma ConfigVerdict(opts: seq<ConfigOption>)
    ensures Validate(Folded(opts)) == Failure(FileGroupInvalid)
        <==> LastSet(opts, FileGroup) in {None, Some("")}
    ensures Validate(Folded(opts)) == Failure(FileNameInvalid)
        <==> LastSet(opts, FileGroup) !in {None, Some("")} && LastSet(opts, FileName) in {None, Some("")}
    ensures LastSet(opts, Namespace) == None ==> Folded(opts).namespace == "default"
  {
    FoldedIsLastWriter(opts, FileGroup);
    FoldedIsLastWriter(opts, FileName);
    FoldedIsLastWriter(opts, Namespace);
  }
}
