/** The catalog side of a stream: finding a stream's entry in a given catalog
    (`stream_details_from_catalog`) and the Singer metadata that `generate_catalog` lists. */
module Catalog {
  import opened Common

  /** One stream of a catalog handed to the tap: its id, its JSON schema (as a dict) and
      its key properties. */
  datatype CatalogEntry = CatalogEntry(tapStreamId: string, schema: Value, keyProperties: seq<string>)

  /** The first entry whose `tap_stream_id` is `name`, or nothing when no entry has it. */
  function StreamDetails(streams: seq<CatalogEntry>, name: string): (r: Option<CatalogEntry>)
    ensures r.None? <==> forall k :: 0 <= k < |streams| ==> streams[k].tapStreamId != name
    ensures r.Some? ==> exists k :: 0 <= k < |streams| && streams[k] == r.value &&
                          r.value.tapStreamId == name &&
                          forall j :: 0 <= j < k ==> streams[j].tapStreamId != name
    decreases |streams|
  {
    if streams == [] then None
    else if streams[0].tapStreamId == name then Some(streams[0])
    else
      var r := StreamDetails(streams[1..], name);
      assert forall k :: 0 < k < |streams| ==> streams[k] == streams[1..][k - 1];
      r
  }

  /** Whether a property is always replicated (a key property) or may be deselected. */
  datatype Inclusion = Automatic | Available

  /** One metadata entry: its breadcrumb and the keys of its `metadata` dict. The stream's
      own entry sets `selected`, `schema-name` and `is_view`; a property's entry only
      `inclusion`. */
  datatype Metadata = Metadata(breadcrumb: seq<string>, selected: Option<bool>,
                               schemaName: Option<string>, isView: Option<bool>,
                               inclusion: Inclusion)

  /** The top-level entry: selected, not a view, `inclusion` available, empty breadcrumb. */
  function StreamMetadata(name: string): Metadata {
    Metadata([], Some(true), Some(name), Some(false), Available)
  }

  /** The entry of one schema property. */
  function PropertyMetadata(prop: string, inclusion: Inclusion): Metadata {
    Metadata(["properties", prop], None, None, None, inclusion)
  }

  /** `automatic` for a key property, `available` for every other one. */
  function InclusionOf(prop: string, keyProperties: seq<string>): (i: Inclusion)
    ensures i == Automatic <==> prop in keyProperties
  {
    if prop in keyProperties then Automatic else Available
  }

  /** `schema['properties'].keys()`: absent when the schema is not a dict, has no
      `properties`, or its `properties` is not a dict (the source raises). */
  function PropertyNames(schema: Value): (r: Option<seq<string>>)
    ensures r.Some? <==> Get(schema, "properties").Some? && Get(schema, "properties").value.Obj?
    ensures r.Some? ==> exists fields: seq<(string, Value)> :: Get(schema, "properties") == Some(Obj(fields)) &&
                          |r.value| == |fields| &&
                          forall k :: 0 <= k < |fields| ==> r.value[k] == fields[k].0
  {
    match Get(schema, "properties")
    case Some(Obj(fields)) => Some(seq(|fields|, k requires 0 <= k < |fields| => fields[k].0))
    case _ => None
  }

  /** The dict `generate_catalog` returns. */
  datatype CatalogOut = CatalogOut(tapStreamId: string, stream: string, keyProperties: seq<string>,
                                   schema: Value, metadata: seq<Metadata>)
}
