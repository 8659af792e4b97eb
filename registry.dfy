/**
 * The process-wide event registry `eventChanMap`: a map from a file's full path to an
 * entry holding a `closed` flag and the channel change events travel on. Channels are
 * references, so whether a channel is closed is channel state (`closedChans`), separate
 * from the flag stored in the map.
 */
module Registry {
  import opened Wrappers
  import opened Polaris
  import opened KeyValues

  /** `getFullPath`: the namespace, group and file name joined by slashes. */
  function FullPath(namespace: string, fileGroup: string, fileName: string): (p: string)
    ensures |p| == |namespace| + |fileGroup| + |fileName| + 2
    ensures p[..|namespace|] == namespace && p[|namespace|] == '/'
    ensures p[|namespace| + 1..|namespace| + 1 + |fileGroup|] == fileGroup && p[|namespace| + 1 + |fileGroup|] == '/'
    ensures p[|namespace| + |fileGroup| + 2..] == fileName
  {
    namespace + "/" + fileGroup + "/" + fileName
  }

  lemma SplitAtFirstSlash(a: string, b: string, x: string, y: string)
    requires '/' !in a && '/' !in x
    requires a + "/" + b == x + "/" + y
    ensures a == x && b == y
  {
    var s := a + "/" + b;
    assert forall i :: 0 <= i < |a| ==> s[i] == a[i];
    assert forall i :: 0 <= i < |x| ==> s[i] == x[i];
    assert s[|a|] == '/' && s[|x|] == '/';
    assert |a| == |x|;
    assert a == s[..|a|] == x;
    assert b == s[|a| + 1..] == y;
  }

  /** When namespace and group hold no slash, the full path determines all three coordinates. */
  lemma FullPathInjective(ns1: string, g1: string, f1: string, ns2: string, g2: string, f2: string)
    requires '/' !in ns1 && '/' !in g1 && '/' !in ns2 && '/' !in g2
    requires FullPath(ns1, g1, f1) == FullPath(ns2, g2, f2)
    ensures ns1 == ns2 && g1 == g2 && f1 == f2
  {
    assert FullPath(ns1, g1, f1) == ns1 + "/" + (g1 + "/" + f1);
    assert FullPath(ns2, g2, f2) == ns2 + "/" + (g2 + "/" + f2);
    SplitAtFirstSlash(ns1, g1 + "/" + f1, ns2, g2 + "/" + f2);
    SplitAtFirstSlash(g1, f1, g2, f2);
  }

  /** Without that restriction two different files can share one registry entry. */
  lemma FullPathCollision()
    ensures FullPath("a/b", "c", "d.yaml") == FullPath("a", "b/c", "d.yaml")
  {
  }

  /** A channel value: Go's nil channel, or a channel made by `make`, told apart by an id. */
  datatype Chan = NilChan | Chan(id: nat)

  /** An `eventChan` struct as stored in the map. */
  datatype EventChan = EventChan(closed: bool, event: Chan)

  /** What indexing a Go map with an absent key yields: the struct's zero value. */
  const ZeroEntry := EventChan(false, NilChan)

  /** The registry: the map, the set of channels that have been closed, and the next fresh channel id. */
  datatype RegistryState = RegistryState(entries: map<string, EventChan>, closedChans: set<nat>, nextChan: nat)

  /** The registry at process start: `make(map[string]eventChan)`. */
  const Empty := RegistryState(map[], {}, 0)

  /**
   * Every entry holds a channel made by `make`, no two entries share a channel,
   * and every channel id in use is below the next fresh one.
   */
  ghost predicate ValidState(s: RegistryState) {
    (forall k :: k in s.entries ==> s.entries[k].event.Chan? && s.entries[k].event.id < s.nextChan)
    && (forall k1, k2 :: k1 in s.entries && k2 in s.entries && k1 != k2 ==> s.entries[k1].event != s.entries[k2].event)
    && (forall c :: c in s.closedChans ==> c < s.nextChan)
  }

  /** The flag stored in the map is never set: no operation of the adapter writes it. */
  ghost predicate FlagsUnset(s: RegistryState) {
    forall k :: k in s.entries ==> !s.entries[k].closed
  }

  /** Indexing the Go map: the stored entry, or the zero value for an absent key. */
  function Lookup(s: RegistryState, key: string): (ec: EventChan)
    ensures key in s.entries ==> ec == s.entries[key]
    ensures key !in s.entries ==> !ec.closed && ec.event == NilChan
  {
    if key in s.entries then s.entries[key] else ZeroEntry
  }

  /** The registry part of `newConfigWatcher`: add an open entry with a fresh channel when `key` is absent. */
  function Registered(s: RegistryState, key: string): (r: RegistryState)
    ensures key in r.entries && r.closedChans == s.closedChans
    ensures key in s.entries ==> r == s
    ensures key !in s.entries ==> r.entries[key] == EventChan(false, Chan(s.nextChan)) && r.nextChan == s.nextChan + 1
    ensures forall k :: k != key ==> (k in r.entries <==> k in s.entries)
  {
    if key in s.entries then s
    else RegistryState(s.entries[key := EventChan(false, Chan(s.nextChan))], s.closedChans, s.nextChan + 1)
  }

  /** Registration fills in an absent key with an open entry on a fresh channel and changes nothing else. */
  lemma RegisteredInsertsOnlyWhenAbsent(s: RegistryState, key: string)
    requires ValidState(s)
    ensures var r := Registered(s, key);
      && ValidState(r)
      && key in r.entries
      && (key in s.entries ==> r == s)
      && (key !in s.entries ==>
            && !r.entries[key].closed
            && r.entries[key].event.Chan?
            && r.entries[key].event.id !in s.closedChans
            && (forall k :: k in s.entries ==> s.entries[k].event != r.entries[key].event))
      && (forall k :: k != key ==> (k in r.entries <==> k in s.entries))
      && (forall k :: k != key && k in s.entries ==> r.entries[k] == s.entries[k])
      && r.closedChans == s.closedChans
  {
  }

  /** Registering the same path twice leaves the map as registering it once. */
  lemma RegisteredIdempotent(s: RegistryState, key: string)
    ensures Registered(Registered(s, key), key) == Registered(s, key)
  {
  }

  /** How `Stop` ends: it returns nil, or `close` panics on a nil or an already closed channel. */
  datatype StopOutcome = ReturnedNil | PanicCloseOfNil | PanicCloseOfClosed

  /**
   * `ConfigWatcher.Stop` as written: the entry is copied out of the map, the flag is set on
   * the copy only, and the channel is closed whenever the flag read was false.
   */
  function Stopped(s: RegistryState, key: string): (r: (RegistryState, StopOutcome))
    ensures r.0.entries == s.entries && r.0.nextChan == s.nextChan
    ensures s.closedChans <= r.0.closedChans
    ensures r.0.closedChans != s.closedChans ==> r.1 == ReturnedNil && key in s.entries
    ensures r.0.closedChans <= s.closedChans + (if Lookup(s, key).event.Chan? then {Lookup(s, key).event.id} else {})
  {
    var ec := Lookup(s, key);
    if ec.closed then (s, ReturnedNil)
    else
      match ec.event
      case NilChan => (s, PanicCloseOfNil)
      case Chan(id) =>
        if id in s.closedChans then (s, PanicCloseOfClosed)
        else (s.(closedChans := s.closedChans + {id}), ReturnedNil)
  }

  /** Stopping a registered watcher whose channel is open closes exactly that channel and returns nil. */
  lemma StopClosesOwnChannel(s: RegistryState, key: string)
    requires ValidState(s) && FlagsUnset(s)
    requires key in s.entries && s.entries[key].event.id !in s.closedChans
    ensures Stopped(s, key) == (s.(closedChans := s.closedChans + {s.entries[key].event.id}), ReturnedNil)
  {
  }

  /**
   * Whatever happened in between, `Stop` on a registered path whose channel is already
   * closed reads the stale false flag and panics in `close`, changing nothing.
   */
  lemma StopOnClosedChannelPanics(s: RegistryState, key: string)
    requires ValidState(s) && FlagsUnset(s)
    requires key in s.entries && s.entries[key].event.id in s.closedChans
    ensures Stopped(s, key) == (s, PanicCloseOfClosed)
  {
  }

  /** Both operations keep the registry consistent and leave every stored flag false. */
  lemma OperationsKeepFlagsUnset(s: RegistryState, key: string)
    requires ValidState(s) && FlagsUnset(s)
    ensures ValidState(Registered(s, key)) && FlagsUnset(Registered(s, key))
    ensures ValidState(Stopped(s, key).0) && FlagsUnset(Stopped(s, key).0)
  {
  }

  /**
   * A second `Stop` for the same path, by the same watcher or by another one sharing the
   * entry, reads the stale false flag and closes the channel again, which panics.
   */
  lemma DoubleStopPanics(s: RegistryState, key: string)
    requires ValidState(s) && FlagsUnset(s) && key in s.entries
    ensures Stopped(Stopped(s, key).0, key).1 == PanicCloseOfClosed
  {
  }

  /** Where `receive` sends an event, seen from a single thread. */
  datatype SendEffect =
    | NoSend                 // the flag read was true
    | BlocksOnNilChannel     // no entry: the zero value's nil channel
    | SendOnClosedRecovered  // the channel is closed: the send panics and the deferred recover logs it
    | OfferedOn(id: nat)     // an open channel: the event is offered to a waiting `Next`

  /** The routing decision of `receive`: the key it looks up and what its guarded send does. */
  datatype Routing = Routing(key: string, send: SendEffect) {
    predicate AttemptsSend() { send != NoSend }
  }

  /** `receive`: look up the event's full path, and send unless the flag read says closed. */
  function Route(s: RegistryState, e: ConfigFileChangeEvent): (d: Routing)
    ensures d.key == FullPath(e.metadata.namespace, e.metadata.fileGroup, e.metadata.fileName)
    ensures d.AttemptsSend() <==> !Lookup(s, d.key).closed
    ensures d.send.OfferedOn? ==> d.key in s.entries && Chan(d.send.id) == s.entries[d.key].event
    ensures d.key in s.entries && !s.entries[d.key].closed && s.entries[d.key].event.Chan?
              && s.entries[d.key].event.id !in s.closedChans
            ==> d.send == OfferedOn(s.entries[d.key].event.id)
  {
    var key := FullPath(e.metadata.namespace, e.metadata.fileGroup, e.metadata.fileName);
    var ec := Lookup(s, key);
    var send :=
      if ec.closed then NoSend
      else match ec.event
        case NilChan => BlocksOnNilChannel
        case Chan(id) => if id in s.closedChans then SendOnClosedRecovered else OfferedOn(id);
    Routing(key, send)
  }

  /** An event for a registered file whose channel is open is offered on that file's channel. */
  lemma RouteOffersToOpenWatcher(s: RegistryState, e: ConfigFileChangeEvent)
    requires ValidState(s) && FlagsUnset(s)
    requires FullPath(e.metadata.namespace, e.metadata.fileGroup, e.metadata.fileName) in s.entries
    requires s.entries[FullPath(e.metadata.namespace, e.metadata.fileGroup, e.metadata.fileName)].event.id !in s.closedChans
    ensures Route(s, e).send == OfferedOn(s.entries[FullPath(e.metadata.namespace, e.metadata.fileGroup, e.metadata.fileName)].event.id)
  {
  }

  /**
   * An event for one file is never offered on the channel of another registered file, as
   * long as namespaces and groups hold no slash.
   */
  lemma RouteIsolation(s: RegistryState, e: ConfigFileChangeEvent, other: ConfigFileMetadata)
    requires ValidState(s)
    requires '/' !in e.metadata.namespace && '/' !in e.metadata.fileGroup
    requires '/' !in other.namespace && '/' !in other.fileGroup
    requires other != e.metadata
    requires FullPath(other.namespace, other.fileGroup, other.fileName) in s.entries
    ensures Route(s, e).send.OfferedOn? ==>
      Chan(Route(s, e).send.id) != s.entries[FullPath(other.namespace, other.fileGroup, other.fileName)].event
  {
    var m := e.metadata;
    if FullPath(m.namespace, m.fileGroup, m.fileName) == FullPath(other.namespace, other.fileGroup, other.fileName) {
      FullPathInjective(m.namespace, m.fileGroup, m.fileName, other.namespace, other.fileGroup, other.fileName);
    }
  }

  /**
   * After `Stop` as written, the flag still reads false, so `receive` for that file still
   * attempts the send, on a closed channel.
   */
  lemma RouteAfterStopSendsOnClosed(s: RegistryState, e: ConfigFileChangeEvent)
    requires ValidState(s) && FlagsUnset(s)
    requires FullPath(e.metadata.namespace, e.metadata.fileGroup, e.metadata.fileName) in s.entries
    ensures Route(Stopped(s, Route(s, e).key).0, e).send == SendOnClosedRecovered
  {
  }

  /**
   * `Stop` as evidently intended: the flag is written back into the map, so the channel is
   * closed once at most, and an absent path is a no-op.
   */
  function StoppedIntended(s: RegistryState, key: string): (r: (RegistryState, StopOutcome))
    ensures r.0.nextChan == s.nextChan
    ensures forall k :: k in r.0.entries <==> k in s.entries
  {
    if key !in s.entries || s.entries[key].closed then (s, ReturnedNil)
    else
      var ec := s.entries[key];
      match ec.event
      case NilChan => (s, PanicCloseOfNil)
      case Chan(id) =>
        if id in s.closedChans then (s, PanicCloseOfClosed)
        else (RegistryState(s.entries[key := ec.(closed := true)], s.closedChans + {id}, s.nextChan), ReturnedNil)
  }

  /** The stored flag says closed exactly when the entry's channel has been closed. */
  ghost predicate FlagsMatchChannels(s: RegistryState)
    requires ValidState(s)
  {
    forall k :: k in s.entries ==> (s.entries[k].closed <==> s.entries[k].event.id in s.closedChans)
  }

  /**
   * With the intended `Stop`, flag and channel agree in every reachable registry, `Stop`
   * never panics, and a second `Stop` changes nothing.
   */
  lemma IntendedStopIsIdempotent(s: RegistryState, key: string)
    requires ValidState(s) && FlagsMatchChannels(s)
    ensures var (s1, o1) := StoppedIntended(s, key);
      && ValidState(s1) && FlagsMatchChannels(s1)
      && o1 == ReturnedNil
      && StoppedIntended(s1, key) == (s1, ReturnedNil)
      && (key in s.entries ==> s1.entries[key].closed && s.entries[key].event.id in s1.closedChans)
      && ValidState(Registered(s, key)) && FlagsMatchChannels(Registered(s, key))
  {
  }

  /** With the intended `Stop`, a later event for that file is not sent at all. */
  lemma RouteAfterIntendedStopSkipsSend(s: RegistryState, e: ConfigFileChangeEvent)
    requires ValidState(s) && FlagsMatchChannels(s)
    requires FullPath(e.metadata.namespace, e.metadata.fileGroup, e.metadata.fileName) in s.entries
    ensures Route(StoppedIntended(s, Route(s, e).key).0, e).send == NoSend
  {
  }

  /** A `ConfigWatcher`: the handle it was built from and its registry key. */
  datatype ConfigWatcher = ConfigWatcher(configFile: ConfigFile, fullPath: string)

  /** What the receive in `Next` yields: an event, or the zero value of a closed channel. */
  datatype Receipt = Delivered(event: ConfigFileChangeEvent) | ChannelClosed

  /** `ConfigWatcher.Next` after its receive: one entry for the watcher's file with the new content. */
  function Next(w: ConfigWatcher, got: Receipt): (kvs: seq<KeyValue>)
    ensures |kvs| == 1 && kvs[0].key == w.configFile.fileName && kvs[0].format == Format(w.configFile.fileName)
    ensures got.Delivered? ==> kvs[0].value == got.event.newValue
    ensures got.ChannelClosed? ==> kvs[0].value == []
  {
    var newValue := if got.Delivered? then got.event.newValue else [];
    Entries(w.configFile.fileName, newValue)
  }

  /** A stopped stream is indistinguishable from a change event with empty content. */
  lemma ClosedLooksLikeEmptyEvent(w: ConfigWatcher, e: ConfigFileChangeEvent)
    requires e.newValue == []
    ensures Next(w, ChannelClosed) == Next(w, Delivered(e))
  {
  }

  /** The registry object itself: the mutable global map together with the channel states. */
  class EventChanMap {
    var entries: map<string, EventChan>
    var closedChans: set<nat>
    var nextChan: nat

    /** The registry's current value. */
    function State(): (s: RegistryState)
      reads this
      ensures s.entries == entries && s.closedChans == closedChans && s.nextChan == nextChan
    {
      RegistryState(entries, closedChans, nextChan)
    }

    ghost predicate Valid()
      reads this
    {
      ValidState(State()) && FlagsUnset(State())
    }

    constructor ()
      ensures Valid() && State() == Empty
    {
      entries, closedChans, nextChan := map[], {}, 0;
    }

    /**
     * `newConfigWatcher`: compute the handle's full path, add a fresh open entry when the
     * path is new, and return the watcher. Listener registration on the client is not modelled.
     */
    method NewConfigWatcher(configFile: ConfigFile) returns (w: ConfigWatcher)
      requires Valid()
      modifies this
      ensures Valid()
      ensures w == ConfigWatcher(configFile, FullPath(configFile.namespace, configFile.fileGroup, configFile.fileName))
      ensures State() == Registered(old(State()), w.fullPath)
    {
      var fullPath := FullPath(configFile.namespace, configFile.fileGroup, configFile.fileName);
      if fullPath !in entries {
        entries := entries[fullPath := EventChan(false, Chan(nextChan))];
        nextChan := nextChan + 1;
      }
      w := ConfigWatcher(configFile, fullPath);
    }

    /** `ConfigWatcher.Stop` as written: the flag is set on a copy, so the map keeps reading false. */
    method Stop(w: ConfigWatcher) returns (outcome: StopOutcome)
      requires Valid()
      modifies this
      ensures Valid()
      ensures (State(), outcome) == Stopped(old(State()), w.fullPath)
      ensures entries == old(entries)
    {
      var ec := if w.fullPath in entries then entries[w.fullPath] else ZeroEntry;
      outcome := ReturnedNil;
      if !ec.closed {
        ec := ec.(closed := true);
        match ec.event
        case NilChan => outcome := PanicCloseOfNil;
        case Chan(id) =>
          if id in closedChans {
            outcome := PanicCloseOfClosed;
          } else {
            closedChans := closedChans + {id};
          }
      }
    }
  }
}
