/**
 * The error type the bridge and discovery code return. Each variant keeps its
 * payload; the human-readable rendering of each variant is not modelled.
 */
module Errors {

  datatype BridgeError =
    | Python(message: string)
    | Import(moduleName: string, message: string)
    | VenvNotFound(path: string)
    | R2XCoreNotInstalled
    | Serialization(message: string)
    | Initialization(message: string)
    | PluginNotFound(message: string)
    | InvalidEntryPoint(message: string)
    | Io(message: string)

  /** The error type of the plugin manifest; rendering is not modelled. */
  datatype ManifestError =
    | ManifestIo(message: string)
    | Parse(message: string)
    | Serialize(message: string)
    | InvalidPlugin(message: string)
}
