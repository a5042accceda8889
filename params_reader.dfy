/**
 * options/params_reader.go: the second copy of the default params
 * reader, identical in behaviour to the one in handle/readers.go.
 */
module OptionsParamsReader {
  import opened Wrappers
  import opened Errors
  import opened ParamsBinding
  import Http
  import Handle

  /** DefaultParamsReader (options package) as an option: it has Reader only. */
  function DefaultParamsReader(id: nat): (c: Handle.Capability)
    ensures Handle.SlotOf(c) == Some(Handle.ParamsSlot)
  {
    Handle.Capability(id, "options.DefaultParamsReader", None, false, None, true)
  }

  /**
   * DefaultParamsReader.Reader: visits the fields in declaration order and
   * sets field i, in place, from its path tag, then its query tag, then its
   * ctx tag.  It never fails.
   */
  method Reader(fields: seq<Field>, req: Http.Request, values: array<Value>) returns (err: Option<GoError>)
    requires values.Length == |fields|
    modifies values
    ensures err.None?
    ensures values[..] == BindAll(fields, req, old(values[..]))
  {
    SetFields(fields, req, values);
    return None;
  }
}
