/** The deployment manifest (src/rmfpapi/config.py): a JSON document read
    once from /pvarki/kraftwerk-init.json, with a built-in default when the
    file is absent, memoised for the life of the process. */
module Manifest {
  import opened Common

  const ManifestPath: string := "/pvarki/kraftwerk-init.json"

  /** What the manifest path holds at the moment of a call, after the
      existence check and json.loads (both outside the model). */
  datatype ManifestFile =
    | Absent                    // Path.exists() is false
    | Malformed                 // the file exists, json.loads raises
    | WellFormed(doc: Json)     // the file exists and parses to doc

  /** The document used when no manifest file exists. */
  const DefaultManifest: Json :=
    JObject(map[
      "deployment" := JString("manifest_notfound"),
      "rasenmaeher" := JObject(map[
        "init" := JObject(map[
          "base_uri" := JString("https://localmaeher.dev.pvarki.fi:4439/"),
          "csr_jwt" := JString("")]),
        "mtls" := JObject(map[
          "base_uri" := JString("https://mtls.localmaeher.dev.pvarki.fi:4439/")]),
        "certcn" := JString("rasenmaeher")]),
      "product" := JObject(map[
        "dns" := JString("matrix.localmaeher.dev.pvarki.fi"),
        "api" := JString("https://matrix.localmaeher.dev.pvarki.fi:4626/"),
        "uri" := JString("https://matrix.localmaeher.dev.pvarki.fi:4626/")])])

  /** The body of get_manifest, without the cache. */
  function LoadManifest(file: ManifestFile): (r: Result<Json>)
    ensures file.Absent? ==> r == Ok(DefaultManifest)
    ensures file.Malformed? <==> r.Err?
    ensures file.Malformed? ==> r == Err(JsonDecodeError)
    ensures file.WellFormed? ==> r == Ok(file.doc)
  {
    match file
    case Absent => Ok(DefaultManifest)
    case Malformed => Err(JsonDecodeError)
    case WellFormed(doc) => Ok(doc)
  }

  /** The fields the rest of the services read from the default document. */
  lemma DefaultManifestFields()
    ensures SubscriptPath(DefaultManifest, ["deployment"]) == Ok(JString("manifest_notfound"))
    ensures SubscriptPath(DefaultManifest, ["rasenmaeher", "certcn"]) == Ok(JString("rasenmaeher"))
    ensures SubscriptPath(DefaultManifest, ["rasenmaeher", "init", "base_uri"])
            == Ok(JString("https://localmaeher.dev.pvarki.fi:4439/"))
    ensures SubscriptPath(DefaultManifest, ["product", "dns"])
            == Ok(JString("matrix.localmaeher.dev.pvarki.fi"))
  {
    DefaultRasenmaeherFields();
    assert ["rasenmaeher", "certcn"][1..] == ["certcn"];
    assert ["rasenmaeher", "init", "base_uri"][1..] == ["init", "base_uri"];
    var product := DefaultManifest.fields["product"];
    assert SubscriptPath(product, ["dns"]) == Ok(JString("matrix.localmaeher.dev.pvarki.fi"));
    assert ["product", "dns"][1..] == ["dns"];
  }

  /** The two paths under "rasenmaeher" in the default document. */
  lemma DefaultRasenmaeherFields()
    ensures SubscriptPath(DefaultManifest.fields["rasenmaeher"], ["certcn"]) == Ok(JString("rasenmaeher"))
    ensures SubscriptPath(DefaultManifest.fields["rasenmaeher"], ["init", "base_uri"])
            == Ok(JString("https://localmaeher.dev.pvarki.fi:4439/"))
  {
    var init := DefaultManifest.fields["rasenmaeher"].fields["init"];
    assert SubscriptPath(init, ["base_uri"]) == Ok(JString("https://localmaeher.dev.pvarki.fi:4439/"));
    assert ["init", "base_uri"][1..] == ["base_uri"];
  }

  /** One call of the memoised get_manifest: the cached value if there is
      one, otherwise the load, remembered only when it returned. */
  function CachedCall(cache: Option<Json>, file: ManifestFile): (r: (Option<Json>, Result<Json>))
    ensures cache.Some? ==> r == (cache, Ok(cache.value))
    ensures cache.None? ==> r.1 == LoadManifest(file)
    ensures cache.None? ==> (r.0.Some? <==> r.1.Ok?) && (r.1.Ok? ==> r.0 == Some(r.1.value))
  {
    match cache
    case Some(doc) => (cache, Ok(doc))
    case None =>
      var r := LoadManifest(file);
      if r.Ok? then (Some(r.value), r) else (None, r)
  }

  /** The results of successive calls, each seeing the file as it then is. */
  function CallSequence(cache: Option<Json>, files: seq<ManifestFile>): (rs: seq<Result<Json>>)
    ensures |rs| == |files|
    decreases |files|
  {
    if files == [] then []
    else
      var (next, r) := CachedCall(cache, files[0]);
      [r] + CallSequence(next, files[1..])
  }

  /** Once a value is cached, every call returns it, whatever the file does. */
  lemma {:induction false} CachedValueSticks(doc: Json, files: seq<ManifestFile>)
    ensures forall i :: 0 <= i < |files| ==> CallSequence(Some(doc), files)[i] == Ok(doc)
  {
    if files != [] {
      CachedValueSticks(doc, files[1..]);
    }
  }

  /** The first call that returns fixes the answer of every later call: later
      calls return that same document even if the file appears, changes or
      vanishes. Calls before it all raised. */
  lemma {:induction false} FirstSuccessWins(files: seq<ManifestFile>, i: nat, j: nat)
    requires i < j < |files|
    requires CallSequence(None, files)[i].Ok?
    ensures CallSequence(None, files)[j] == CallSequence(None, files)[i]
  {
    var (next, r) := CachedCall(None, files[0]);
    if i == 0 {
      CachedValueSticks(r.value, files[1..]);
      assert CallSequence(None, files)[j] == CallSequence(next, files[1..])[j - 1];
    } else {
      if r.Ok? {
        CachedValueSticks(r.value, files[1..]);
        assert CallSequence(None, files)[i] == CallSequence(next, files[1..])[i - 1];
        assert CallSequence(None, files)[j] == CallSequence(next, files[1..])[j - 1];
      } else {
        FirstSuccessWins(files[1..], i - 1, j - 1);
      }
    }
  }

  /** A failing call is only possible while nothing is cached, and then only
      because the file was malformed at that moment. */
  lemma {:induction false} FailureMeansMalformedAndUncached(cache: Option<Json>, files: seq<ManifestFile>, i: nat)
    requires i < |files|
    requires CallSequence(cache, files)[i].Err?
    ensures cache.None? && files[i].Malformed?
    ensures CallSequence(cache, files)[i] == Err(JsonDecodeError)
    decreases i
  {
    var (next, r) := CachedCall(cache, files[0]);
    if cache.Some? {
      CachedValueSticks(cache.value, files);
    } else if i > 0 {
      FailureMeansMalformedAndUncached(next, files[1..], i - 1);
    }
  }

  /** The `functools.cache` around get_manifest: one slot, filled by the
      first call that returns. */
  class ManifestProvider {
    var cached: Option<Json>

    constructor ()
      ensures cached == None
    {
      cached := None;
    }

    method GetManifest(file: ManifestFile) returns (r: Result<Json>)
      modifies this
      ensures (cached, r) == CachedCall(old(cached), file)
      ensures old(cached).Some? ==> cached == old(cached) && r == Ok(old(cached).value)
      ensures old(cached).None? ==> r == LoadManifest(file)
      ensures r.Ok? ==> cached == Some(r.value)
      ensures r.Err? ==> cached == None
    {
      if cached.Some? {
        return Ok(cached.value);
      }
      r := LoadManifest(file);
      if r.Ok? {
        cached := Some(r.value);
      }
    }
  }

  /** LOG_LEVEL: the LOG_LEVEL environment setting, 20 (INFO) when unset. */
  function LogLevel(env: map<string, int>): (level: int)
    ensures "LOG_LEVEL" !in env ==> level == 20
    ensures "LOG_LEVEL" in env ==> level == env["LOG_LEVEL"]
  {
    if "LOG_LEVEL" in env then env["LOG_LEVEL"] else 20
  }
}
