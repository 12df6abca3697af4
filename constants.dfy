/** The server's constants. Their source file is not part of this model, so the regular
    expressions are predicates and the paths and extension list are values chosen by the
    caller. */
module Constants {

  datatype Config = Config(
    clientPublicPath: string,        // CLIENT_PUBLIC_PATH, the HMR client runtime's url
    preBundleDir: string,            // PRE_BUNDLE_DIR, relative to the project root
    defaultExtensions: seq<string>,  // DEFAULT_EXTENSIONS, probed in this order
    jsTypes: string -> bool,         // JS_TYPES_RE.test
    bareImport: string -> bool)      // BARE_IMPORT_RE.test
}
