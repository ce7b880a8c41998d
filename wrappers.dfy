/** Option and Result types shared by the model, and the exceptions the
    catalog code can raise, as values. */
module Wrappers {

  datatype Option<+T> = None | Some(value: T)

  /** What the Python code raises on the paths the model keeps. */
  datatype Error =
    /** `int(...)` of a non-numeric piece, or a list index out of range,
        while taking a simulation name or file name apart. */
    | NameFormat(name: string)
    /** A kept metadata line with no `=`: `kv[1]` raises IndexError. */
    | MalformedLine(line: string)
    /** A table row whose `simulation_name` is absent or not text: pandas
        raises KeyError, or `sim_tag in name` raises TypeError. */
    | NoSimulationName(row: nat)
    /** `metadata_filename_from_cache` found no file for any tag and
        returns a name it never bound (UnboundLocalError). */
    | UnboundFileName
    /** The consistency assertion of the table lookup failed. */
    | IndexMismatch(found: int, searched: int)

  datatype Result<+T> = Ok(value: T) | Err(error: Error)
}
