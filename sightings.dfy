/** The records returned by the recent-observations endpoint of the sighting service,
    and the outcome of one request to it. */
module Sightings {
  import opened Wrappers

  /** One sighting record. Only the fields the screens read are kept; the coordinates
      (`lat`, `lng`) are floating point and are not part of this model. */
  datatype Record = Record(
    speciesCode: string,
    comName: string,
    sciName: string,
    obsDt: string,
    howMany: Option<nat>,
    locName: string,
    obsValid: bool)

  /** What `fetch(...).then(response => response.json())` settles to: the decoded
      array of records, or a rejection (network failure or a body that is not JSON). */
  datatype Fetch = Ok(records: seq<Record>) | Err

  /** `records.map(bird => bird.speciesCode)`. */
  function Codes(records: seq<Record>): (codes: seq<string>)
    ensures |codes| == |records|
    ensures forall i :: 0 <= i < |records| ==> codes[i] == records[i].speciesCode
  {
    if records == [] then [] else [records[0].speciesCode] + Codes(records[1..])
  }

  /** A code occurs in `Codes(records)` exactly when some record carries it. */
  lemma {:induction false} CodesMembership(records: seq<Record>, code: string)
    ensures code in Codes(records) <==> exists r :: r in records && r.speciesCode == code
  {
    var codes := Codes(records);
    if code in codes {
      var i :| 0 <= i < |codes| && codes[i] == code;
      assert records[i] in records;
    }
    if exists r :: r in records && r.speciesCode == code {
      var r :| r in records && r.speciesCode == code;
      var i :| 0 <= i < |records| && records[i] == r;
      assert codes[i] == code;
    }
  }
}
