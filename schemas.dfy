/** The product description shapes both services answer with: the v1
    ProductDescription (from the shared pvarki schema library) and the v2
    ProductDescriptionExtended with its ProductComponent, declared alike in
    src/matrixrmapi/api/description.py and src/rmfpapi/api/description.py.
    The v2 model forbids extra fields; a datatype has exactly its declared
    ones, and the component type can only be one of its three literals. */
module Schemas {
  import opened Common

  const ProductShortname: string := "matrix"

  const DocsUrl: string := "https://pvarki.github.io/Docusaurus-docs/docs/android/deployapp/home/"

  datatype ProductDescription = ProductDescription(
    shortname: string,
    title: string,
    icon: Option<string>,
    description: string,
    language: string)

  datatype ComponentType = Link | Markdown | Component

  datatype ProductComponent = ProductComponent(kind: ComponentType, ref: string)

  datatype ProductDescriptionExtended = ProductDescriptionExtended(
    shortname: string,
    title: string,
    icon: Option<string>,
    description: string,
    language: string,
    docs: string,
    component: ProductComponent)

  /** The literal pydantic writes for a component type. */
  function ComponentTypeName(kind: ComponentType): (name: string)
    ensures name in {"link", "markdown", "component"}
  {
    match kind
    case Link => "link"
    case Markdown => "markdown"
    case Component => "component"
  }

  /** Validation of a component type literal, the inverse of ComponentTypeName. */
  function ParseComponentType(name: string): (r: Option<ComponentType>)
    ensures r.Some? <==> name in {"link", "markdown", "component"}
  {
    if name == "link" then Some(Link)
    else if name == "markdown" then Some(Markdown)
    else if name == "component" then Some(Component)
    else None
  }

  /** Naming and validating are inverse both ways. */
  lemma ComponentTypeRoundTrip(kind: ComponentType, name: string)
    ensures ParseComponentType(ComponentTypeName(kind)) == Some(kind)
    ensures ParseComponentType(name) == Some(kind) ==> ComponentTypeName(kind) == name
  {
  }
}
