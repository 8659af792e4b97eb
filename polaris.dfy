/**
 * The values the adapter receives from the Polaris configuration client.
 * The client itself (connections, long polling, listener dispatch) is not modelled:
 * its answers are plain values here.
 */
module Polaris {

  /** A Go byte; configuration content is a Go string, i.e. a sequence of bytes. */
  newtype byte = b: int | 0 <= b < 256

  /** A handle returned by `GetConfigFile`: its coordinates and the content it reports. */
  datatype ConfigFile = ConfigFile(namespace: string, fileGroup: string, fileName: string, content: seq<byte>)

  /** The coordinates a change event carries. */
  datatype ConfigFileMetadata = ConfigFileMetadata(namespace: string, fileGroup: string, fileName: string)

  /** A change notification: which file changed and its new content. */
  datatype ConfigFileChangeEvent = ConfigFileChangeEvent(metadata: ConfigFileMetadata, newValue: seq<byte>)

  /** The outcome of `GetConfigFile`: a handle, or the client's error. */
  datatype FetchResult = Fetched(file: ConfigFile) | FetchFailed(error: string)

  /**
   * The client's answer to `GetConfigFile(namespace, fileGroup, fileName)` at the moment
   * the adapter asks.
   */
  type ConfigService = (string, string, string) -> FetchResult
}
