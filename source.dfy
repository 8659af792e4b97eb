/**
 * The configuration source handed to the framework: built by `Config`, it loads the file
 * once and builds watchers for it on the shared registry.
 */
module PolarisSource {
  import opened Wrappers
  import opened Polaris
  import opened KeyValues
  import opened Options
  import opened Registry

  /** A `source`: its options record, whose `configFile` the loads update. */
  class Source {
    var options: ConfigOptions

    constructor (options: ConfigOptions)
      ensures this.options == options
    {
      this.options := options;
    }

    /**
     * `Load`: ask the client for the configured file. On failure return the client's error
     * and leave the cached handle as it was; on success cache the handle and return one
     * entry keyed by the configured file name.
     */
    method Load(service: ConfigService) returns (r: Result<seq<KeyValue>, string>)
      modifies this
      ensures var fetched := service(old(options).namespace, old(options).fileGroup, old(options).fileName);
        match fetched
        case FetchFailed(err) => r == Failure(err) && options == old(options)
        case Fetched(file) =>
          && r == Success(Entries(old(options).fileName, file.content))
          && options == old(options).(configFile := Some(file))
    {
      var fetched := service(options.namespace, options.fileGroup, options.fileName);
      if fetched.FetchFailed? {
        return Failure(fetched.error);
      }
      var content := fetched.file.content;
      var k := options.fileName;
      options := options.(configFile := Some(fetched.file));
      r := Success(Entries(k, content));
    }

    /** `Watch`: a watcher on the registry for the handle of the last successful load. */
    method Watch(registry: EventChanMap) returns (w: ConfigWatcher)
      requires options.configFile.Some?
      requires registry.Valid()
      modifies registry
      ensures registry.Valid()
      ensures w.configFile == options.configFile.value
      ensures w.fullPath == FullPath(w.configFile.namespace, w.configFile.fileGroup, w.configFile.fileName)
      ensures registry.State() == Registered(old(registry.State()), w.fullPath)
    {
      w := registry.NewConfigWatcher(options.configFile.value);
    }
  }

  /**
   * `Config`: fold the options over the defaults, reject an empty group, then an empty
   * name, and otherwise build a source that has loaded nothing yet.
   */
  method Config(opts: seq<ConfigOption>) returns (r: Result<Source, ConfigError>)
    ensures r.Failure? ==> Validate(Folded(opts)) == Failure(r.error)
    ensures r.Success? ==> Validate(Folded(opts)) == Success(Folded(opts))
    ensures r.Success? ==> fresh(r.value) && r.value.options == Folded(opts) && r.value.options.configFile == None
  {
    var options := ApplyOptions(opts);
    if options.fileGroup == "" {
      return Failure(FileGroupInvalid);
    }
    if options.fileName == "" {
      return Failure(FileNameInvalid);
    }
    var s := new Source(options);
    r := Success(s);
  }

  /**
   * A source for "config.yaml" in group "app" of namespace "prod" whose load returns
   * "a: 1" yields the entry {"config.yaml", "a: 1", "yaml"}.
   */
  method LoadScenario() {
    var opts := [WithConfigNamespace("prod"), WithFileGroup("app"), WithFileName("config.yaml")];
    assert opts[..2][..1] == [WithConfigNamespace("prod")] && opts[..2] == [WithConfigNamespace("prod"), WithFileGroup("app")];
    assert Folded(opts) == ConfigOptions("prod", "app", "config.yaml", None);
    var r := Config(opts);
    var src := r.value;
    var content: seq<byte> := [97, 58, 32, 49];
    var file := ConfigFile("prod", "app", "config.yaml", content);
    var service: ConfigService := (ns, g, f) => if (ns, g, f) == ("prod", "app", "config.yaml") then Fetched(file) else FetchFailed("not found");
    var loaded := src.Load(service);
    FormatOfDottedNames();
    assert loaded == Success([KeyValue("config.yaml", content, "yaml")]);
  }

  /** Watching one loaded source twice registers one entry, and stopping twice panics on the second call. */
  method StopTwiceScenario(file: ConfigFile) {
    var src := new Source(ConfigOptions(file.namespace, file.fileGroup, file.fileName, Some(file)));
    var registry := new EventChanMap();
    var w1 := src.Watch(registry);
    var w2 := src.Watch(registry);
    assert w1 == w2 && |registry.entries| == 1;
    var first := registry.Stop(w1);
    assert first == ReturnedNil;
    var second := registry.Stop(w2);
    assert second == PanicCloseOfClosed;
  }
}
