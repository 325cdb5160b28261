/**
 * Reading a cloud file location out of a notification's payload dictionary:
 * four required numeric fields of fixed types and an optional hex-encoded
 * file reference.
 *
 * Decoding hex into bytes is a function outside this model; it is a
 * parameter.
 */
module NotificationLocation {
  import opened Wrappers

  type Byte = b: int | 0 <= b < 0x100

  /** A payload value, by the type a cast can find in it. */
  datatype AnyValue = AInt32(i: Int32) | AInt64(l: Int64) | AString(s: string) | AOther

  type Payload = map<string, AnyValue>

  /** A file stored in the cloud, as the media layer refers to it. */
  datatype CloudFileResource = CloudFileResource(
    datacenterId: int,
    volumeId: Int64,
    localId: Int32,
    secret: Int64,
    size: Option<int>,
    fileReference: Option<seq<Byte>>)

  predicate HasInt32(dict: Payload, key: string) {
    key in dict && dict[key].AInt32?
  }

  predicate HasInt64(dict: Payload, key: string) {
    key in dict && dict[key].AInt64?
  }

  /**
   * `parseFileLocationResource`: nothing unless "datacenterId" and "localId"
   * hold an Int32 and "volumeId" and "secret" an Int64; the file reference is
   * the decoded "fileReference" string, when there is one.
   */
  function ParseFileLocation(dict: Payload, dataWithHexString: string -> seq<Byte>): (r: Option<CloudFileResource>)
    ensures r.Some? <==>
      HasInt32(dict, "datacenterId") && HasInt64(dict, "volumeId") && HasInt32(dict, "localId") && HasInt64(dict, "secret")
    ensures r.Some? ==>
      && r.value.datacenterId == dict["datacenterId"].i
      && r.value.volumeId == dict["volumeId"].l
      && r.value.localId == dict["localId"].i
      && r.value.secret == dict["secret"].l
      && r.value.size == None
      && (r.value.fileReference.Some? <==> "fileReference" in dict && dict["fileReference"].AString?)
      && (r.value.fileReference.Some? ==> r.value.fileReference.value == dataWithHexString(dict["fileReference"].s))
  {
    if !HasInt32(dict, "datacenterId") then None
    else if !HasInt64(dict, "volumeId") then None
    else if !HasInt32(dict, "localId") then None
    else if !HasInt64(dict, "secret") then None
    else
      var fileReference :=
        if "fileReference" in dict && dict["fileReference"].AString?
        then Some(dataWithHexString(dict["fileReference"].s))
        else None;
      Some(CloudFileResource(dict["datacenterId"].i, dict["volumeId"].l, dict["localId"].i, dict["secret"].l, None, fileReference))
  }

  /** The payload a sender writes for a file location, with the reference as hex when there is one. */
  function LocationPayload(datacenterId: Int32, volumeId: Int64, localId: Int32, secret: Int64, referenceHex: Option<string>): (r: Payload)
    ensures HasInt32(r, "datacenterId") && HasInt64(r, "volumeId") && HasInt32(r, "localId") && HasInt64(r, "secret")
  {
    var base := map["datacenterId" := AInt32(datacenterId), "volumeId" := AInt64(volumeId),
                    "localId" := AInt32(localId), "secret" := AInt64(secret)];
    if referenceHex.Some? then base["fileReference" := AString(referenceHex.value)] else base
  }

  /** Reading a written location gives back its fields, with no size and the decoded reference. */
  lemma ParseOfPayload(datacenterId: Int32, volumeId: Int64, localId: Int32, secret: Int64, referenceHex: Option<string>,
                       dataWithHexString: string -> seq<Byte>)
    ensures ParseFileLocation(LocationPayload(datacenterId, volumeId, localId, secret, referenceHex), dataWithHexString)
      == Some(CloudFileResource(datacenterId, volumeId, localId, secret, None,
                                if referenceHex.Some? then Some(dataWithHexString(referenceHex.value)) else None))
  {
  }
}
