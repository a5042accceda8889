/**
 * handle/readers.go: the JSON body reader's key and the default params
 * reader, which binds a params struct from the request field by field.
 */
module HandleReaders {
  import opened Wrappers
  import opened Errors
  import opened ParamsBinding
  import Http
  import Handle

  /** JSONBodyReader as an option: it has Reader and ContentType() == "application/json". */
  function JsonBodyReader(id: nat): (c: Handle.Capability)
    ensures c.contentType == Some(Http.MimeJson) && c.canRead && c.accept.None?
  {
    Handle.Capability(id, "handle.JSONBodyReader", None, false, Some(Http.MimeJson), true)
  }

  /** DefaultParamsReader as an option: it has Reader only. */
  function DefaultParamsReader(id: nat): (c: Handle.Capability)
    ensures c.canRead && c.contentType.None? && c.accept.None?
  {
    Handle.Capability(id, "handle.DefaultParamsReader", None, false, None, true)
  }

  /**
   * Given to newStruct, the JSON body reader is filed under "application/json"
   * as a body reader, never as the params reader; the default params reader
   * is filed as the params reader.
   */
  lemma ReadersAreFiled(id: nat, id2: nat)
    ensures Handle.SlotOf(JsonBodyReader(id)) == Some(Handle.BodyReaderSlot(Http.MimeJson))
    ensures Handle.SlotOf(DefaultParamsReader(id2)) == Some(Handle.ParamsSlot)
  {
  }

  /**
   * DefaultParamsReader.Reader: visits the fields in declaration order and
   * sets field i, in place, from its path tag, then its query tag, then its
   * ctx tag.  It never fails.
   */
  method Reader(fields: seq<Field>, req: Http.Request, values: array<Value>) returns (err: Option<GoError>)
    requires values.Length == |fields|
    modifies values
    ensures err.None?
    ensures values[..] == BindAll(fields, req, old(values[..]))
  {
    SetFields(fields, req, values);
    return None;
  }
}
