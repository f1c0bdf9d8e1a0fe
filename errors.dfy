/**
 * The crate's error enum. `RenderNotFound` is raised by the render dispatch
 * but is absent from the enum as declared; it is added here.
 */
module Errors {

  datatype Error =
    | Io(message: string)            // a filesystem call reported a failure
    | TomlDe(message: string)        // TOML text or schema could not be decoded
    | TomlSer(message: string)       // a value could not be serialised to TOML
    | InvalidDataBlock               // missing or unterminated `+++` front matter
    | RenderNotFound(name: string)   // no renderer registered under `name`
    | Unknown                        // the enum's default variant
}
