/** Values shared by the whole model: bytes, the result wrappers and the
    bridge's error taxonomy. */
module Types {

  newtype Byte = b: int | 0 <= b < 256

  type Bytes = seq<Byte>

  /** The cause an external collaborator (file system, overlay engine) reports. */
  type Cause = string

  datatype Option<+T> = None | Some(value: T)

  datatype Result<+T, +E> = Ok(value: T) | Err(error: E)

  /** Every way a bridge call can fail, classified by cause rather than by
      message text. */
  datatype Error =
    | NotTrusted              // load_mod_dll on a mod without `trusted = true`
    | OutsideModDirectory     // the cleaned path does not stay under mods/<name>
    | LibraryNotLoaded        // the native loader returned no handle
    | NoSuchDat(dat: string)  // write_dat_contents on an archive with no overlay
    | OverlayFailed(cause: Cause)
    | FileFailed(cause: Cause)
}
