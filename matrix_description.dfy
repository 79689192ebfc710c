/** Product descriptions of the Authority-facing service
    (src/matrixrmapi/api/description.py). */
module MatrixDescription {
  import opened Common
  import opened Schemas

  const FinnishDescription: string := "\"tuote\" integraatioiden testaamiseen"
  const EnglishDescription: string := "Matrix messaging service"
  /** The Swedish text as it is stored in the source file, mis-encoded. */
  const SwedishDescription: string := "Falsk produkt f\U{221A}\U{2202}r integrationstestning och exempel"

  const IconPath: string := "ui/matrix/matrixlogo.svg"
  const RemoteEntry: string := "/ui/matrix/remoteEntry.js"

  /** GET /api/v1/description/{language}: Finnish and English only. */
  function DescriptionV1(language: string): (r: Result<ProductDescription>)
    ensures r.Ok? <==> language == "fi" || language == "en"
    ensures r.Err? ==> r.error == NotFound
    ensures r.Ok? ==> r.value.shortname == "matrix" && r.value.icon == None
                      && r.value.language == language && r.value.title == "Matrix"
    ensures language == "fi" ==> r == Ok(ProductDescription("matrix", "Matrix", None, FinnishDescription, "fi"))
    ensures language == "en" ==> r == Ok(ProductDescription("matrix", "Matrix", None, "Matrix messaging service", "en"))
  {
    if language == "fi" then
      Ok(ProductDescription(ProductShortname, "Matrix", None, FinnishDescription, "fi"))
    else if language == "en" then
      Ok(ProductDescription(ProductShortname, "Matrix", None, EnglishDescription, "en"))
    else
      Err(NotFound)
  }

  /** GET /api/v2/description/{language}: Finnish, Swedish, and an English
      fallback for every other code, which is echoed back. */
  function DescriptionV2(language: string): (r: ProductDescriptionExtended)
    ensures r.language == language
    ensures r.shortname == "matrix"
    ensures r.icon == Some("ui/matrix/matrixlogo.svg")
    ensures r.docs == DocsUrl
    ensures r.component == ProductComponent(Component, "/ui/matrix/remoteEntry.js")
    ensures language == "fi" ==> r.title == "Feikkituote" && r.description == FinnishDescription
    ensures language == "sv" ==> r.title == "Falsk produkt" && r.description == SwedishDescription
    ensures language != "fi" && language != "sv" ==>
              r.title == "Matrix" && r.description == "Matrix messaging service"
  {
    AssetPaths();
    var icon := Some("ui/" + ProductShortname + "/matrixlogo.svg");
    var component := ProductComponent(Component, "/ui/" + ProductShortname + "/remoteEntry.js");
    if language == "fi" then
      ProductDescriptionExtended(ProductShortname, "Feikkituote", icon, FinnishDescription,
                                 language, DocsUrl, component)
    else if language == "sv" then
      ProductDescriptionExtended(ProductShortname, "Falsk produkt", icon, SwedishDescription,
                                 language, DocsUrl, component)
    else
      ProductDescriptionExtended(ProductShortname, "Matrix", icon, EnglishDescription,
                                 language, DocsUrl, component)
  }

  /** The icon and component paths are built from the product's shortname. */
  lemma AssetPaths()
    ensures "ui/" + ProductShortname + "/matrixlogo.svg" == IconPath
    ensures "/ui/" + ProductShortname + "/remoteEntry.js" == RemoteEntry
  {
  }

  /** Every code other than fi and sv gets the English entry, relabelled
      with the code that was asked for. */
  lemma V2FallsBackToEnglish(language: string)
    requires language != "fi" && language != "sv"
    ensures DescriptionV2(language) == DescriptionV2("en").(language := language)
  {
  }

  /** Where v1 answers, v2 agrees with it on everything v1 has except the
      Finnish title (v1 "Matrix", v2 "Feikkituote"). */
  lemma V2AgreesWithV1(language: string)
    requires DescriptionV1(language).Ok?
    ensures var v1, v2 := DescriptionV1(language).value, DescriptionV2(language);
            v2.shortname == v1.shortname && v2.description == v1.description
            && v2.language == v1.language
            && (v2.title == v1.title <==> language == "en")
  {
  }
}
