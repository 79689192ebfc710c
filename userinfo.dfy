/** Per-user markdown for the client-facing service
    (src/rmfpapi/api/userinfo.py): POST /api/v2/clients/{language}/info.md.
    The module's guard is the comes_from_rm of the Authority-facing service. */
module UserInfo {
  import opened Common
  import opened PyStr
  import UserCrud

  /** get_callsign: the CN rendered as text, so "None" when the DN has no CN. */
  function GetCallsign(dn: Dn): (callsign: string)
    ensures "CN" in dn ==> callsign == dn["CN"]
    ensures "CN" !in dn ==> callsign == "None"
  {
    if "CN" in dn then dn["CN"] else "None"
  }

  /** Python's str() of a JSON scalar, as an f-string interpolates it. Lists
      and dicts are rendered by containerText: their Python repr is not
      part of this model. */
  function FormatValue(v: Json, containerText: Json -> string): (text: string)
    ensures v.JString? ==> text == v.s
    ensures v.JNull? ==> text == "None"
  {
    match v
    case JNull => "None"
    case JBool(b) => if b then "True" else "False"
    case JNumber(n) => IntToDecimal(n)
    case JString(s) => s
    case _ => containerText(v)
  }

  /** A markdown template with two holes: the callsign, then the deployment. */
  datatype Template = Template(head: string, middle: string, tail: string)

  function Fill(t: Template, callsign: string, deployment: string): string
  {
    t.head + callsign + t.middle + deployment + t.tail
  }

  const FinnishTemplate := Template(
    "\n## Feikkituote\n\nTerve ",
    "! T\U{00E4}m\U{00E4} on esimerkki tuoteintegraatioiden kehitt\U{00E4}jille.\n\nPy\U{00F6}rii deploymentissa \"",
    "\"\n\n        ")

  const EnglishTemplate := Template(
    "\n## Matrix product\n\nHello ",
    "! This is a minimal example integration for integration developers' reference.\n\nRunning on deployment \"",
    "\"\n")

  /** "fi" is Finnish; everything else, Swedish included, falls back to English. */
  function SelectTemplate(language: string): (t: Template)
    ensures language == "fi" <==> t == FinnishTemplate
    ensures language != "fi" <==> t == EnglishTemplate
  {
    if language == "fi" then FinnishTemplate else EnglishTemplate
  }

  /** A request the guard lets through came with a manifest that is a dict,
      so `manifest.get` after the guard cannot fail. */
  lemma GuardPassImpliesObject(dn: Dn, manifest: Json)
    requires UserCrud.ComesFromRm(dn, manifest).None?
    ensures manifest.JObject?
  {
    assert ["rasenmaeher", "certcn"][1..] == ["certcn"];
  }

  /** `manifest.get("deployment")`. */
  function DeploymentValue(manifest: Json): (v: Json)
    requires manifest.JObject?
    ensures "deployment" !in manifest.fields ==> v == JNull
    ensures "deployment" in manifest.fields ==> v == manifest.fields["deployment"]
  {
    if "deployment" in manifest.fields then manifest.fields["deployment"] else JNull
  }

  /** get_info: the guard, then the template for the language filled with the
      callsign of the request body and the manifest's deployment label. */
  function GetInfo(language: string, user: UserCrudRequest, dn: Dn, manifest: Json,
                   containerText: Json -> string): (r: Result<string>)
    ensures r.Err? <==> UserCrud.ComesFromRm(dn, manifest).Some?
    ensures r.Err? ==> r.error == UserCrud.ComesFromRm(dn, manifest).value
    ensures r.Ok? ==> manifest.JObject?
    ensures r.Ok? ==> r.value == Fill(SelectTemplate(language), user.callsign,
                                      FormatValue(DeploymentValue(manifest), containerText))
  {
    match UserCrud.ComesFromRm(dn, manifest)
    case Some(e) => Err(e)
    case None =>
      GuardPassImpliesObject(dn, manifest);
      var callsign := user.callsign;
      var dname := FormatValue(DeploymentValue(manifest), containerText);
      Ok(Fill(SelectTemplate(language), callsign, dname))
  }

  /** Both holes of a filled template keep their text verbatim. */
  lemma FillContains(t: Template, callsign: string, deployment: string)
    ensures OccursAt(callsign, Fill(t, callsign, deployment), |t.head|)
    ensures OccursAt(deployment, Fill(t, callsign, deployment), |t.head| + |callsign| + |t.middle|)
  {
    var s := Fill(t, callsign, deployment);
    var i := |t.head| + |callsign| + |t.middle|;
    assert s == t.head + callsign + (t.middle + deployment + t.tail);
    assert s[|t.head|..|t.head| + |callsign|] == callsign;
    assert s == (t.head + callsign + t.middle) + deployment + t.tail;
    assert s[i..i + |deployment|] == deployment;
  }

  /** The Authority's answer contains the deployment string verbatim and the
      callsign from the request body (not the CN of the caller), whatever
      the language. */
  lemma InfoMentionsCallsignAndDeployment(language: string, user: UserCrudRequest, dn: Dn,
                                          manifest: Json, deployment: string,
                                          containerText: Json -> string)
    requires UserCrud.ComesFromRm(dn, manifest).None?
    requires SubscriptPath(manifest, ["deployment"]) == Ok(JString(deployment))
    ensures GetInfo(language, user, dn, manifest, containerText).Ok?
    ensures exists i :: OccursAt(deployment, GetInfo(language, user, dn, manifest, containerText).value, i)
    ensures exists i :: OccursAt(user.callsign, GetInfo(language, user, dn, manifest, containerText).value, i)
  {
    var t := SelectTemplate(language);
    FillContains(t, user.callsign, deployment);
  }

  /** Without a "deployment" key the literal text None is interpolated. */
  lemma MissingDeploymentReadsNone(language: string, user: UserCrudRequest, dn: Dn, manifest: Json,
                                   containerText: Json -> string)
    requires UserCrud.ComesFromRm(dn, manifest).None?
    requires manifest.JObject? && "deployment" !in manifest.fields
    ensures GetInfo(language, user, dn, manifest, containerText)
            == Ok(Fill(SelectTemplate(language), user.callsign, "None"))
  {
  }

  /** A caller that is not the Authority gets 403 and no markdown. */
  lemma NonAuthorityForbidden(language: string, user: UserCrudRequest, dn: Dn, manifest: Json,
                              certcn: string, containerText: Json -> string)
    requires UserCrud.CertCn(manifest) == Ok(JString(certcn))
    requires !("CN" in dn && dn["CN"] == certcn)
    ensures GetInfo(language, user, dn, manifest, containerText) == Err(Forbidden)
  {
    UserCrud.PassesIffCnMatches(dn, manifest, certcn);
  }
}
