/**
 * The catalog's record types (src/data/types.ts) and the six catalog entries of
 * src/data/products.ts, used as a fixture by the example lemmas.
 */
module Products {

  datatype Option<T> = None | Some(value: T)

  /** `ProductCategory`: 'graduaciones' | 'marketing'. */
  datatype Category = Graduaciones | Marketing

  /** The four badge strings a product may carry. */
  datatype Badge = Nuevo | EdicionLimitada | TopVentas | Personalizado

  /** 'Disponible' | 'A pedido'. */
  datatype Availability = Disponible | APedido

  /**
   * A catalog entry. Prices are whole pesos. Every field marked `?` in the
   * source is an `Option` here; `leadTime` is the free text shown to the
   * customer ("Entrega 15 días").
   */
  datatype Product = Product(
    id: string,
    name: string,
    description: string,
    price: int,
    image: string,
    category: Category,
    leadTime: Option<string>,
    availability: Option<Availability>,
    badge: Option<Badge>,
    specs: Option<seq<string>>,
    personalization: Option<string>,
    minOrder: Option<string>,
    sampleEligible: Option<bool>)

  /** A fixture entry: the descriptive text and the image address are left empty. */
  function Fixture(id: string, name: string, price: int, category: Category,
                   leadTime: string, badge: Option<Badge>): Product
  {
    Product(id, name, "", price, "", category, Some(leadTime), None, badge, None, None, None, None)
  }

  /** The lead-time text of the fixture entries: "Entrega <days> días". */
  function Entrega(days: string): string
  {
    "Entrega " + days + " días"
  }

  const StoleMagna := Fixture("grad-stole-magna", "Estola bordada Magna", 22990, Graduaciones, Entrega("15"), Some(TopVentas))
  const BirreteSignature := Fixture("grad-birrete-signature", "Birrete Signature", 14990, Graduaciones, Entrega("10"), Some(Nuevo))
  const TunicaCeremonial := Fixture("grad-tunica-ceremonial", "Túnica ceremonial premium", 32990, Graduaciones, Entrega("20"), Some(EdicionLimitada))
  const KitBienvenida := Fixture("mkt-kit-bienvenida", "Kit de bienvenida ejecutivo", 27990, Marketing, Entrega("12"), None)
  const TextilEco := Fixture("mkt-textil-eco", "Tote bag ecológica bordada", 11990, Marketing, Entrega("14"), Some(TopVentas))
  const KitEscritura := Fixture("mkt-kit-escritura", "Kit de escritura premium", 18990, Marketing, Entrega("10"), Some(Nuevo))

  /** The catalog in the order the source lists it. */
  const Catalog: seq<Product> := [StoleMagna, BirreteSignature, TunicaCeremonial, KitBienvenida, TextilEco, KitEscritura]
}
