/** Product descriptions of the client-facing service
    (src/rmfpapi/api/description.py). Its v2 entries point the portal at the
    per-user markdown served under /api/v2/clients/{language}/info.md. */
module RmfpDescription {
  import opened Common
  import opened Schemas

  const FinnishDescription: string := "\"tuote\" integraatioiden testaamiseen"
  const SwedishDescription: string := "Falsk produkt f\U{00F6}r integrationstestning och exempel"
  const MdUrlPrefix: string := "/api/v1/product/proxy/matrix/api/v2/clients/"
  const MdUrlSuffix: string := "/info.md"

  /** The markdown URL the v2 description points to. */
  function MdUrl(language: string): (url: string)
    ensures url == MdUrlPrefix + language + MdUrlSuffix
  {
    "/api/v1/product/proxy/" + ProductShortname + "/api/v2/clients/" + language + "/info.md"
  }

  /** Reading the language back out of a markdown URL: the partner of MdUrl. */
  function MdUrlLanguage(url: string): (r: Option<string>)
  {
    if |url| >= |MdUrlPrefix| + |MdUrlSuffix|
       && url[..|MdUrlPrefix|] == MdUrlPrefix
       && url[|url| - |MdUrlSuffix|..] == MdUrlSuffix
    then Some(url[|MdUrlPrefix|..|url| - |MdUrlSuffix|])
    else None
  }

  /** The URL embeds the language losslessly, so distinct languages get
      distinct URLs. */
  lemma MdUrlRoundTrip(language: string)
    ensures MdUrlLanguage(MdUrl(language)) == Some(language)
  {
    var url := MdUrl(language);
    assert url[..|MdUrlPrefix|] == MdUrlPrefix;
    assert url[|url| - |MdUrlSuffix|..] == MdUrlSuffix;
    assert url[|MdUrlPrefix|..|url| - |MdUrlSuffix|] == language;
  }

  lemma MdUrlInjective(l1: string, l2: string)
    requires MdUrl(l1) == MdUrl(l2)
    ensures l1 == l2
  {
    MdUrlRoundTrip(l1);
    MdUrlRoundTrip(l2);
  }

  /** GET /api/v1/description/{language}: Finnish and English only. */
  function DescriptionV1(language: string): (r: Result<ProductDescription>)
    ensures r.Ok? <==> language == "fi" || language == "en"
    ensures r.Err? ==> r.error == NotFound
    ensures r.Ok? ==> r.value.shortname == "matrix" && r.value.icon == None
                      && r.value.language == language
    ensures language == "fi" ==> r == Ok(ProductDescription("matrix", "Feikkituote", None, FinnishDescription, "fi"))
    ensures language == "en" ==> r == Ok(ProductDescription("matrix", "Matrix", None, "Matrix product", "en"))
  {
    if language == "fi" then
      Ok(ProductDescription(ProductShortname, "Feikkituote", None, FinnishDescription, "fi"))
    else if language == "en" then
      Ok(ProductDescription(ProductShortname, "Matrix", None, "Matrix product", "en"))
    else
      Err(NotFound)
  }

  /** GET /api/v2/description/{language}: never fails, echoes the code, and
      always offers the markdown component for that code. */
  function DescriptionV2(language: string): (r: ProductDescriptionExtended)
    ensures r.language == language
    ensures r.shortname == "matrix" && r.icon == None && r.docs == DocsUrl
    ensures r.component.kind == Markdown
    ensures MdUrlLanguage(r.component.ref) == Some(language)
    ensures language == "fi" ==> r.title == "Feikkituote" && r.description == FinnishDescription
    ensures language == "sv" ==> r.title == "Falsk produkt" && r.description == SwedishDescription
    ensures language != "fi" && language != "sv" ==>
              r.title == "Matrix Product"
              && r.description == "Matrix product for integrations testing and examples"
  {
    MdUrlRoundTrip(language);
    var component := ProductComponent(Markdown, MdUrl(language));
    if language == "fi" then
      ProductDescriptionExtended(ProductShortname, "Feikkituote", None, FinnishDescription,
                                 language, DocsUrl, component)
    else if language == "sv" then
      ProductDescriptionExtended(ProductShortname, "Falsk produkt", None, SwedishDescription,
                                 language, DocsUrl, component)
    else
      ProductDescriptionExtended(ProductShortname, "Matrix Product", None,
                                 "Matrix product for integrations testing and examples",
                                 language, DocsUrl, component)
  }

  /** Every code other than fi and sv, including en, gets the English entry
      with its own code and its own markdown URL. */
  lemma V2FallsBackToEnglish(language: string)
    requires language != "fi" && language != "sv"
    ensures DescriptionV2(language)
            == DescriptionV2("en").(language := language,
                                    component := ProductComponent(Markdown, MdUrl(language)))
  {
  }

  /** v1 and v2 agree completely on Finnish; on English they share only the
      shortname and language (titles and descriptions differ). */
  lemma V1AndV2Compared()
    ensures var v1, v2 := DescriptionV1("fi").value, DescriptionV2("fi");
            v1.title == v2.title && v1.description == v2.description && v1.icon == v2.icon
    ensures var v1, v2 := DescriptionV1("en").value, DescriptionV2("en");
            v1.title != v2.title && v1.description != v2.description
            && v1.shortname == v2.shortname && v1.language == v2.language
  {
  }
}
