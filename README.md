# Polaris configuration source, modelled in Dafny

This project models the Polaris configuration source of the kratos framework
(`contrib/polaris/config.go`). The adapter reads one named configuration file from the
Polaris service (namespace, file group, file name) and hands it to the framework as a
single key-value entry. It also fans change events from the Polaris client out to
watchers through a process-wide registry, `eventChanMap`, keyed by the file's full path.

The model is split by component:

- `wrappers.dfy` (`Wrappers`): `Option` and `Result`.
- `polaris.dfy` (`Polaris`): the client's values as plain data: the file handle, change events, the fetch result and `ConfigService`, the client's answer to `GetConfigFile`.
- `gostrings.dfy` (`GoStrings`): Go's `filepath.Ext` with the Unix separator, and `strings.TrimPrefix`, with lemmas that characterise the extension.
- `keyvalues.dfy` (`KeyValues`): the `KeyValue` entry and the rule that a file's format is its extension without the dot.
- `options.dfy` (`Options`): the functional options, their in-order folding over the defaults (a loop proved against the `Folded` function), and the validation of group and name.
- `registry.dfy` (`Registry`): `getFullPath`, the registry as a class (`EventChanMap`) whose methods are proved against pure transition functions on `RegistryState`, the routing decision of `receive`, `Stop` as written and as intended, and what `Next` returns.
- `source.dfy` (`PolarisSource`): the `source` class with `Load` and `Watch`, the `Config` constructor, and a worked scenario.

The registry is a map from full path to `EventChan(closed, event)` plus the set of
channel ids that have actually been closed. Channels are Go references, but the map
stores struct values. So when `Stop` sets `closed` on the copy it read (line 168), the map
entry keeps reading `false` while its channel really is closed. The model keeps this
behaviour: `FlagsUnset` is an invariant of `EventChanMap`.

The `closed` flag and the guard in `receive` show that a second `Stop` is meant to do
nothing, but `Stop` never writes the flag back. The model follows the code, so a second
`Stop` on the same path panics (see Findings).

## Model

| member | source | states |
|---|---|---|
| `GoStrings.Ext` | contrib/polaris/config.go:97 | A non-empty extension starts with a dot, holds no other dot and no separator, and is a suffix of the path. |
| `GoStrings.ExtEmptyIffNoDot` | contrib/polaris/config.go:97 | The extension is empty exactly when the final path element has no dot (both directions). |
| `GoStrings.ExtOfSplit` | contrib/polaris/config.go:97 | A path ending in a dot and a dot-free, separator-free tail has that dot and tail as its extension. |
| `GoStrings.ExtSplits` | contrib/polaris/config.go:97 | Conversely, any path with a non-empty extension is a stem, a dot, and a dot-free, separator-free tail. |
| `GoStrings.ExtIgnoresDirectory` | contrib/polaris/config.go:97 | Dots before the last separator do not count: a path has the extension of its final element. |
| `GoStrings.ExtWithoutAnyDot` | contrib/polaris/config.go:97 | A path with no dot has the empty extension. |
| `GoStrings.TrimPrefix` | contrib/polaris/config.go:97 | The result is the string with the prefix removed when it starts with it, and the string unchanged otherwise. |
| `KeyValues.Format` | contrib/polaris/config.go:97 | The format is empty when the extension is empty, and otherwise the extension is a dot followed by the format. |
| `KeyValues.Entries` | contrib/polaris/config.go:93-99 | Exactly one entry, keyed by the file name, carrying the content bytes unchanged and the name's format. |
| `KeyValues.FormatOfSplit` | contrib/polaris/config.go:97 | The format of `stem.ext` is `ext` when `ext` has no dot and no separator (so "config.yaml" gives "yaml"). |
| `KeyValues.FormatWithoutDot` | contrib/polaris/config.go:97 | The format is empty when the final path element has no dot (so "config" gives ""). |
| `KeyValues.FormatIsTailAfterLastDot` | contrib/polaris/config.go:97 | A non-empty format holds no dot or separator, and the name is a stem, a dot and the format. |
| `KeyValues.FormatOfDottedNames` | contrib/polaris/config.go:97 | "config.yaml" has format "yaml" and "archive.tar.gz" has format "gz": only the last dot counts. |
| `KeyValues.FormatOfUndottedNames` | contrib/polaris/config.go:97 | "config", "conf.d/app" and "config." all have the empty format. |
| `Options.Apply` | contrib/polaris/config.go:27-45 | Each option sets its own field to its argument and leaves the other fields and the cached handle unchanged. |
| `Options.ConfigError.Message` | contrib/polaris/config.go:63-69 | The two errors carry the texts "fileGroup invalid" and "fileName invalid". |
| `Options.Folded` | contrib/polaris/config.go:53-61 | With no options the result is the defaults: namespace "default", empty group and name, no handle. Folding never sets the cached file handle. |
| `Options.ApplyOptions` | contrib/polaris/config.go:53-61 | The loop ends with the defaults updated by every option, first to last. |
| `Options.FoldedIsLastWriter` | contrib/polaris/config.go:27-61 | Each field holds the value of the last option that sets it, or its default when none does, so a later option overrides an earlier one. |
| `Options.Validate` | contrib/polaris/config.go:63-69 | Fails on the group exactly when the group is empty, whatever the name; fails on the name exactly when the group is set and the name is empty; succeeds exactly when both are non-empty. |
| `Options.ConfigVerdict` | contrib/polaris/config.go:52-74 | In terms of the option list: "fileGroup invalid" exactly when no option sets a non-empty group last; "fileName invalid" exactly when the group is set last to a non-empty value and the name is not; no namespace option means namespace "default". |
| `PolarisSource.Config` | contrib/polaris/config.go:52-75 | Returns the validation error for the folded options, or a fresh source holding exactly the folded options and no loaded handle. |
| `PolarisSource.Source.Load` | contrib/polaris/config.go:78-100 | Asks the client with the configured coordinates. A fetch error is returned as is, with no values and the cache unchanged. On success it caches the handle and returns the single entry for the configured file name with the handle's content. |
| `PolarisSource.Source.Watch` | contrib/polaris/config.go:103-105 | Builds a watcher on the last loaded handle, keyed by the handle's full path, and registers that path. |
| `Registry.FullPath` | contrib/polaris/config.go:119-121 | The full path is the namespace, a slash, the group, a slash and the file name, at those positions. |
| `Registry.Lookup` | contrib/polaris/config.go:125 | Reading the map gives the stored entry, or for an absent key the zero value: flag false and the nil channel (also at lines 154 and 166). |
| `Registry.Registered` | contrib/polaris/config.go:140-145 | The path is present afterwards. A present path leaves the registry unchanged. An absent one gets an open entry on the next fresh channel. No other key appears or disappears, and the closed channels stay the same. |
| `Registry.FullPathInjective` | contrib/polaris/config.go:119-121 | When namespace and group hold no slash, equal full paths come from equal coordinates. |
| `Registry.FullPathCollision` | contrib/polaris/config.go:119-121 | With a slash inside the namespace or group, two different files get the same full path. |
| `Registry.RegisteredInsertsOnlyWhenAbsent` | contrib/polaris/config.go:139-145 | An absent path gets an open entry on a channel no other entry uses and that is not closed. A present path leaves the registry unchanged. Every other key and the closed channels stay as they were. |
| `Registry.RegisteredIdempotent` | contrib/polaris/config.go:139-145 | Registering the same path twice gives the same registry as registering it once. |
| `Registry.Stopped` | contrib/polaris/config.go:165-171 | `Stop` never changes the map. The closed channels only grow, and only by the channel of the entry read for the path; they change only when `Stop` returns nil for a registered path. |
| `Registry.StopClosesOwnChannel` | contrib/polaris/config.go:165-171 | Stopping a registered path whose channel is open closes exactly that channel and returns nil. |
| `Registry.OperationsKeepFlagsUnset` | contrib/polaris/config.go:136-171 | Registration and `Stop` keep the registry consistent, and every stored `closed` flag stays false. |
| `Registry.DoubleStopPanics` | contrib/polaris/config.go:165-171 | A `Stop` repeated right after another on a registered path reaches `close` on an already closed channel. |
| `Registry.StopOnClosedChannelPanics` | contrib/polaris/config.go:165-171 | In any consistent registry, whatever happened since, `Stop` on a registered path whose channel is closed panics in `close` and changes nothing. |
| `Registry.Route` | contrib/polaris/config.go:123-134 | `receive` looks up the path built from the event's namespace, group and file name. It attempts a send exactly when the flag it reads is false. Any channel it offers on is that path's own, and a registered path with an open channel is always offered the event. |
| `Registry.RouteOffersToOpenWatcher` | contrib/polaris/config.go:131-133 | In a consistent registry, an event for a registered file whose channel is open is offered on exactly that file's channel. |
| `Registry.RouteIsolation` | contrib/polaris/config.go:123-134 | When namespaces and groups hold no slash, an event for one file is never offered on another registered file's channel. |
| `Registry.RouteAfterStopSendsOnClosed` | contrib/polaris/config.go:131-133 | After `Stop` as written, `receive` for that file still attempts its send, on the closed channel. |
| `Registry.StoppedIntended` | contrib/polaris/config.go:165-171 | The intended `Stop` neither adds nor removes keys and keeps the next channel id. |
| `Registry.IntendedStopIsIdempotent` | contrib/polaris/config.go:165-171 | With the flag written back, flags agree with channel states in every reachable registry, `Stop` returns nil, marks the entry closed, and a second `Stop` changes nothing. |
| `Registry.RouteAfterIntendedStopSkipsSend` | contrib/polaris/config.go:131-133 | With the intended `Stop`, a later event for the stopped file is not sent. |
| `Registry.Next` | contrib/polaris/config.go:153-163 | One entry keyed by the watcher's file name with its format. Its value is the event's new content, or empty when the channel was closed. |
| `Registry.ClosedLooksLikeEmptyEvent` | contrib/polaris/config.go:153-163 | After `Stop`, `Next` returns the same entries as for a real event with empty content. |
| `Registry.EventChanMap.constructor` | contrib/polaris/config.go:117 | The registry starts empty, with no channel closed. |
| `Registry.EventChanMap.NewConfigWatcher` | contrib/polaris/config.go:136-151 | Returns the watcher for the handle and its full path, and updates the registry as `Registered` does, keeping the registry invariant. |
| `Registry.EventChanMap.Stop` | contrib/polaris/config.go:165-171 | Leaves the map untouched and changes the closed channels and the outcome exactly as `Stopped` does. |

## Findings

| source | as written | input that shows it | evidently intended | confidence | as-written member | corrected member |
|---|---|---|---|---|---|---|
| contrib/polaris/config.go:165-171 | `Stop` sets `closed` on a copy of the map entry, so the entry keeps reading false | register a path, call `Stop`, then call `Stop` again (the same watcher, or a second watcher on the same path): the second call closes a closed channel and panics | the flag is stored back, so a second `Stop` does nothing | high, not executed | `Registry.DoubleStopPanics` | `Registry.IntendedStopIsIdempotent` |
| contrib/polaris/config.go:131-133 | the `closed` guard in `receive` reads a flag that is never true | call `Stop`, then deliver a change event for the same file: `receive` sends on the closed channel, panics, and the deferred recover logs the panic | after `Stop`, `receive` skips the send | high, not executed | `Registry.RouteAfterStopSendsOnClosed` | `Registry.RouteAfterIntendedStopSkipsSend` |

`EventChanMap` and the `Scenario` method use `Stop` as written, because they describe
the adapter as it behaves. The corrected behaviour is `StoppedIntended`, and the two
corrected lemmas above are proved about it.

## Left out

- The Polaris client is not modelled. `GetConfigFile` becomes the `ConfigService` parameter of `Load`, the handle accessors become fields of `ConfigFile`, and the `client` field filled from `p.config` in `Config` (line 72) is dropped with it.
- `AddChangeListener(receive)` (line 137) is a call into the client. The model does not record listener registrations, so it does not capture that each `Watch` registers another listener.
- Channel blocking and delivery are not modelled. The receive in `Next` (line 155) becomes a `Receipt` input, and the send in `receive` (line 132) is only classified by `SendEffect`. Blocking forever on a nil channel is a label, not behaviour.
- The map lookup in `Next` (line 154) is not modelled apart from the receipt, since the watcher's path is always registered.
- The `recover`/`log.Error` in `receive` (lines 126-130) appears only as the `SendOnClosedRecovered` label. The `fmt.Println` in `Load` (line 81) is output and is left out.
- The second `if err != nil` in `Load` (lines 85-87) can never be taken, so it is not modelled.
- Options.ConfigOption: only the three exported option constructors are modelled. In Go an option is a function value, so a nil option panics when `Config` calls it (line 60), and that path is not modelled.
- PolarisSource.Source.Watch: requires a loaded handle; calling `Watch` before a successful `Load` (line 104) is a nil dereference in the code. Its always-nil error result is omitted.
- Registry.EventChanMap.Stop: panics are returned as `StopOutcome` values rather than unwinding the caller; the always-nil error is `ReturnedNil`.
- GoStrings.Ext: uses only the Unix separator `/`; Windows volume names and `\` are not modelled.
- Go strings are byte strings. Content is modelled as `seq<byte>`, so `[]byte(content)` is the identity. Names and paths are Dafny strings whose characters stand for bytes.
- Concurrency is not modelled: races on the unsynchronised map, and the ordering of `Stop`, `receive` and `Next` across goroutines.
- Decoding and merging of the returned `KeyValue`s by the framework are not part of this model.
