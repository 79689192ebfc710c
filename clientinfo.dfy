/** The deprecated end-user fragment of the client-facing service
    (src/rmfpapi/api/clientinfo.py): two download entries, one per client
    app, each a zip archive holding the user's certificate and handed over
    as a base64 data URI. Building the zip archive is a parameter of the
    model: `zip(pem, filename)` stands for zip_pem. */
module ClientInfo {
  import opened Common
  import opened PyStr
  import opened Base64

  /** One `{"title", "data", "filename"}` entry of the answer. */
  datatype InstructionFragment = InstructionFragment(title: string, data: string, filename: string)

  /** The media-type part of every data URI, up to the comma. */
  const DataUriHead: string := "data:application/zip;base64"

  /** A zip archive as a data URI: the zip media type, the base64 marker, a
      comma and the base64 text. */
  function DataUri(bytes: seq<Byte>): (uri: string)
    ensures |uri| == |DataUriHead| + 1 + |Encode(bytes)|
    ensures uri[..|DataUriHead| + 1] == DataUriHead + ","
    ensures uri[|DataUriHead| + 1..] == Encode(bytes)
  {
    var uri := DataUriHead + "," + Encode(bytes);
    assert uri[..|DataUriHead| + 1] == DataUriHead + ",";
    uri
  }

  /** client_instruction_fragment: the iMatrix entry, then the aMatrix entry.
      The endpoint has no Authority guard and never fails. */
  function ClientInstructionFragment(user: UserCrudRequest, zip: (string, string) -> seq<Byte>)
    : (r: seq<InstructionFragment>)
    ensures |r| == 2
    ensures r[0].title == "iMatrix" && r[1].title == "aMatrix"
    ensures r[0].filename == user.callsign + "_1.zip" && r[1].filename == user.callsign + "_2.zip"
    ensures r[0].data == DataUri(zip(user.x509cert, user.callsign + "_1.pem"))
    ensures r[1].data == DataUri(zip(user.x509cert, user.callsign + "_2.pem"))
  {
    [InstructionFragment("iMatrix", DataUri(zip(user.x509cert, user.callsign + "_1.pem")),
                         user.callsign + "_1.zip"),
     InstructionFragment("aMatrix", DataUri(zip(user.x509cert, user.callsign + "_2.pem")),
                         user.callsign + "_2.zip")]
  }

  /** `data.split(",")` yields exactly the head and the payload, and the
      payload decodes back to the archive bytes: no bit of the archive is lost,
      and a non-empty archive gives a non-empty payload. */
  lemma DataUriRoundTrip(bytes: seq<Byte>)
    ensures Split(DataUri(bytes), ',') == [DataUriHead, Encode(bytes)]
    ensures Decode(Encode(bytes)) == Some(bytes)
    ensures |bytes| > 0 ==> |Encode(bytes)| > 0
  {
    var e := Encode(bytes);
    assert ',' !in DataUriHead;
    EncodeHasNoComma(bytes);
    SplitAfterFirst(DataUriHead, e, ',');
    SplitAbsent(e, ',');
    assert DataUri(bytes) == DataUriHead + [','] + e;
    DecodeEncode(bytes);
  }

  /** Both entries carry a recoverable archive of the certificate, named
      after the callsign, and the two archives and files are told apart only
      by the digit. */
  lemma FragmentPayloads(user: UserCrudRequest, zip: (string, string) -> seq<Byte>)
    ensures var r := ClientInstructionFragment(user, zip);
            forall k :: 0 <= k < 2 ==>
              var pem := user.callsign + "_" + ["1", "2"][k] + ".pem";
              var parts := Split(r[k].data, ',');
              |parts| == 2 && parts[0] == DataUriHead
              && Decode(parts[1]) == Some(zip(user.x509cert, pem))
    ensures var r := ClientInstructionFragment(user, zip);
            r[0].filename != r[1].filename
  {
    var r := ClientInstructionFragment(user, zip);
    var pem1 := user.callsign + "_1.pem";
    var pem2 := user.callsign + "_2.pem";
    DataUriRoundTrip(zip(user.x509cert, pem1));
    DataUriRoundTrip(zip(user.x509cert, pem2));
    assert user.callsign + "_" + "1" + ".pem" == pem1;
    assert user.callsign + "_" + "2" + ".pem" == pem2;
    assert r[0].filename[|user.callsign| + 1] == '1';
    assert r[1].filename[|user.callsign| + 1] == '2';
  }
}
