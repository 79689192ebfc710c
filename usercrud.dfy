/** User lifecycle notifications (src/matrixrmapi/api/usercrud.py): the
    Authority-origin guard and the five handlers it protects. */
module UserCrud {
  import opened Common

  /** Python `manifest["rasenmaeher"]["certcn"]`. */
  function CertCn(manifest: Json): (r: Result<Json>)
    ensures r.Ok? <==> manifest.JObject? && "rasenmaeher" in manifest.fields
                       && manifest.fields["rasenmaeher"].JObject?
                       && "certcn" in manifest.fields["rasenmaeher"].fields
    ensures r.Ok? ==> r.value == manifest.fields["rasenmaeher"].fields["certcn"]
  {
    SubscriptPath(manifest, ["rasenmaeher", "certcn"])
  }

  /** None when the request may proceed, otherwise what comes_from_rm raises.
      It compares the DN's CN (None when absent) with the manifest's certcn
      using Python equality: a string equals only the same string, None
      equals only null. */
  function ComesFromRm(dn: Dn, manifest: Json): (raised: Option<Error>)
    ensures CertCn(manifest).Err? ==> raised == Some(CertCn(manifest).error)
    ensures CertCn(manifest).Ok? ==>
              (raised.None? <==> DnCn(dn) == CertCn(manifest).value)
    ensures CertCn(manifest).Ok? && raised.Some? ==> raised == Some(Forbidden)
  {
    var cn := DnCn(dn);
    match CertCn(manifest)
    case Err(e) => Some(e)
    case Ok(certcn) => if cn != certcn then Some(Forbidden) else None
  }

  /** When certcn is a string: the guard passes exactly when the DN has a CN
      and that CN is the same string, compared character by character. */
  lemma PassesIffCnMatches(dn: Dn, manifest: Json, certcn: string)
    requires CertCn(manifest) == Ok(JString(certcn))
    ensures ComesFromRm(dn, manifest).None? <==> "CN" in dn && dn["CN"] == certcn
    ensures ComesFromRm(dn, manifest).Some? ==> ComesFromRm(dn, manifest) == Some(Forbidden)
  {
  }

  /** A DN without CN fails closed against any string certcn. */
  lemma MissingCnIsForbidden(dn: Dn, manifest: Json, certcn: string)
    requires "CN" !in dn
    requires CertCn(manifest) == Ok(JString(certcn))
    ensures ComesFromRm(dn, manifest) == Some(Forbidden)
  {
  }

  /** A certcn that is JSON null matches a DN with no CN at all, because
      `None != None` is false. */
  lemma NullCertCnAdmitsMissingCn(dn: Dn, manifest: Json)
    requires "CN" !in dn
    requires CertCn(manifest) == Ok(JNull)
    ensures ComesFromRm(dn, manifest).None?
  {
  }

  /** The decision depends on the DN only through its CN. */
  lemma GuardSeesOnlyCn(dn1: Dn, dn2: Dn, manifest: Json)
    requires ("CN" in dn1) == ("CN" in dn2)
    requires "CN" in dn1 ==> dn1["CN"] == dn2["CN"]
    ensures ComesFromRm(dn1, manifest) == ComesFromRm(dn2, manifest)
  {
  }

  /** The five notifications and the routes they are mounted on. */
  datatype UserEvent = Created | Revoked | Promoted | Demoted | Updated

  datatype HttpMethod = Post | Put

  function Route(event: UserEvent): (r: (HttpMethod, string))
    ensures r.0 == Put <==> event == Updated
    ensures |r.1| > 1 && r.1[0] == '/' && '/' !in r.1[1..]
  {
    match event
    case Created => (Post, "/created")
    case Revoked => (Post, "/revoked")
    case Promoted => (Post, "/promoted")
    case Demoted => (Post, "/demoted")
    case Updated => (Put, "/updated")
  }

  /** The five routes are distinct. */
  lemma RoutesDistinct(e1: UserEvent, e2: UserEvent)
    requires e1 != e2
    ensures Route(e1) != Route(e2)
  {
  }

  /** OperationResultResponse. */
  datatype OperationResult = OperationResult(success: bool)

  /** user_created, user_revoked, user_promoted, user_demoted, user_updated:
      the guard first, then success. The body is not looked at. */
  function HandleUserEvent(event: UserEvent, user: UserCrudRequest, dn: Dn, manifest: Json)
    : (r: Result<OperationResult>)
    ensures r.Ok? <==> ComesFromRm(dn, manifest).None?
    ensures r.Ok? ==> r.value.success
    ensures r.Err? ==> r.error == ComesFromRm(dn, manifest).value
  {
    match ComesFromRm(dn, manifest)
    case Some(e) => Err(e)
    case None => Ok(OperationResult(true))
  }

  /** No path answers success=false. */
  lemma NeverReportsFailure(event: UserEvent, user: UserCrudRequest, dn: Dn, manifest: Json)
    ensures HandleUserEvent(event, user, dn, manifest) != Ok(OperationResult(false))
  {
  }

  /** The answer does not depend on which event it is, nor on the body
      (uuid, callsign, certificate), nor on DN attributes other than CN. */
  lemma OutcomeIndependentOfBody(e1: UserEvent, e2: UserEvent, u1: UserCrudRequest, u2: UserCrudRequest,
                                 dn1: Dn, dn2: Dn, manifest: Json)
    requires ("CN" in dn1) == ("CN" in dn2)
    requires "CN" in dn1 ==> dn1["CN"] == dn2["CN"]
    ensures HandleUserEvent(e1, u1, dn1, manifest) == HandleUserEvent(e2, u2, dn2, manifest)
  {
    GuardSeesOnlyCn(dn1, dn2, manifest);
  }

  /** With a string certcn: the Authority gets success, everyone else 403. */
  lemma AuthorityGetsSuccessOthersForbidden(event: UserEvent, user: UserCrudRequest, dn: Dn,
                                            manifest: Json, certcn: string)
    requires CertCn(manifest) == Ok(JString(certcn))
    ensures "CN" in dn && dn["CN"] == certcn ==>
              HandleUserEvent(event, user, dn, manifest) == Ok(OperationResult(true))
    ensures !("CN" in dn && dn["CN"] == certcn) ==>
              HandleUserEvent(event, user, dn, manifest) == Err(Forbidden)
  {
    PassesIffCnMatches(dn, manifest, certcn);
  }
}
