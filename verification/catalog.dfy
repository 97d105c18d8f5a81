/** The catalog client of `src/lib/shopify.js`: the classification of a
    Storefront API response and the mapping of raw product nodes to the
    display record the UI consumes. The HTTP exchange is an input. */
module Catalog {
  import opened Wrappers
  import opened Text

  /** The `productType` shown when the source has none (or an empty one). */
  const DefaultProductType := "Shelving"

  /** The page size requested when the caller gives no count. */
  const DefaultFirst := 12

  // ----- Environment and request -----

  /** The store domain and access token read from the environment. */
  datatype Env = Env(domain: Option<string>, token: Option<string>)

  /** A JavaScript string is truthy when it is present and not empty. */
  predicate Truthy(s: Option<string>) {
    s.Some? && s.value != ""
  }

  /** `assertEnv`: live calls need both a domain and a token. */
  predicate Configured(env: Env)
    ensures Configured(env) ==> env.domain.Some? && env.token.Some?
    ensures env.domain == Some("") || env.token == Some("") ==> !Configured(env)
  {
    Truthy(env.domain) && Truthy(env.token)
  }

  datatype Variables = Variables(first: int)

  /** What is sent: the store, the credential and the query variables. */
  datatype Request = Request(domain: string, token: string, variables: Variables)

  /** `getFeaturedProducts({ first = 12 } = {})`: the query variables. */
  function FeaturedVariables(count: Option<int>): (v: Variables)
    ensures count.None? ==> v.first == 12
    ensures count.Some? ==> v.first == count.value
  {
    Variables(count.GetOr(DefaultFirst))
  }

  // ----- Decoded response body -----

  /** A decoded JSON value, enough to judge the truthiness of `errors`. */
  datatype Json =
    | JNull
    | JBool(b: bool)
    | JNumber(n: real)
    | JString(s: string)
    | JArray(items: seq<Json>)
    | JObject(fields: seq<(string, Json)>)

  /** JavaScript truthiness of a JSON value: arrays and objects are truthy even when empty. */
  predicate JsonTruthy(j: Json)
    ensures j == JNull || j == JBool(false) || j == JString("") ==> !JsonTruthy(j)
    ensures j.JArray? || j.JObject? ==> JsonTruthy(j)
  {
    match j
    case JNull => false
    case JBool(b) => b
    case JNumber(n) => n != 0.0
    case JString(s) => s != ""
    case JArray(_) => true
    case JObject(_) => true
  }

  datatype Image = Image(url: string, altText: Option<string>, width: Option<int>, height: Option<int>)
  datatype ImageEdge = ImageEdge(node: Image)
  datatype ImageConnection = ImageConnection(edges: Option<seq<ImageEdge>>)
  datatype Money = Money(amount: string, currencyCode: string)
  datatype PriceRange = PriceRange(minVariantPrice: Option<Money>)

  /** A product node as the Storefront API returns it; optional fields are `Option`s. */
  datatype RawNode = RawNode(
    id: string,
    title: string,
    handle: string,
    productType: Option<string>,
    tags: Option<seq<string>>,
    description: Option<string>,
    featuredImage: Option<Image>,
    images: Option<ImageConnection>,
    priceRange: Option<PriceRange>)

  datatype Edge = Edge(node: RawNode)
  datatype ProductConnection = ProductConnection(edges: Option<seq<Edge>>)
  datatype Data = Data(products: Option<ProductConnection>)

  /** The decoded body: `{ data?: { products?: { edges?: [...] } }, errors? }`. */
  datatype Payload = Payload(data: Option<Data>, errors: Option<Json>)

  /** The body returned when no configuration is present: no products. */
  const EmptyPayload := Payload(Some(Data(Some(ProductConnection(Some([]))))), None)

  /** What the transport produced: the status, the raw body text and its decoding. */
  datatype Response = Response(status: int, text: string, json: Payload) {
    /** `Response.ok` of the Fetch standard: a status in the range 200 to 299. */
    predicate Ok() {
      200 <= status <= 299
    }
  }

  // ----- Outcome classification (`shopifyFetch`) -----

  /** The two failures the response classifier raises. */
  datatype FetchError =
    | RequestFailed(status: int, body: string)
    | GraphQLErrors(errors: Json)

  /** The request issued (if any) and what the classifier returns or raises. */
  datatype Exchange<T> = Exchange(request: Option<Request>, result: Result<T, FetchError>)

  /** `shopifyFetch`: with no configuration nothing is sent and the empty body is
      returned; otherwise a non-ok status, then a truthy `errors` field, fail in that
      order, and any other response returns its decoded body. */
  function ShopifyFetch(env: Env, variables: Variables, response: Response): (x: Exchange<Payload>)
    ensures x.request.None? <==> !Configured(env)
    ensures x.request.Some? ==>
      x.request.value == Request(env.domain.value, env.token.value, variables)
    ensures !Configured(env) ==> x.result == Success(EmptyPayload)
    ensures Configured(env) && !response.Ok() ==>
      x.result == Failure(RequestFailed(response.status, response.text))
    ensures (Configured(env) && response.Ok() && response.json.errors.Some?
      && JsonTruthy(response.json.errors.value)) ==>
      x.result == Failure(GraphQLErrors(response.json.errors.value))
    ensures x.result.Success? <==>
      !Configured(env) || (response.Ok() && !(response.json.errors.Some? && JsonTruthy(response.json.errors.value)))
    ensures Configured(env) && x.result.Success? ==> x.result.value == response.json
  {
    if !Configured(env) then
      Exchange(None, Success(EmptyPayload))
    else
      var request := Some(Request(env.domain.value, env.token.value, variables));
      if !response.Ok() then
        Exchange(request, Failure(RequestFailed(response.status, response.text)))
      else if response.json.errors.Some? && JsonTruthy(response.json.errors.value) then
        Exchange(request, Failure(GraphQLErrors(response.json.errors.value)))
      else
        Exchange(request, Success(response.json))
  }

  /** Without configuration the transport's answer is never consulted. */
  lemma UnconfiguredIgnoresTransport(env: Env, variables: Variables, r1: Response, r2: Response)
    requires !Configured(env)
    ensures ShopifyFetch(env, variables, r1) == ShopifyFetch(env, variables, r2)
  {
  }

  /** An `errors` field holding an empty array still fails the call. */
  lemma EmptyErrorArrayFails(env: Env, variables: Variables, response: Response)
    requires Configured(env) && response.Ok() && response.json.errors == Some(JArray([]))
    ensures ShopifyFetch(env, variables, response).result == Failure(GraphQLErrors(JArray([])))
  {
  }

  const RequestFailedPrefix := "Shopify request failed: "
  const GraphQLErrorsPrefix := "Shopify GraphQL errors: "

  /** The text of the thrown `Error`; `stringify` stands for `JSON.stringify`. */
  function Message(e: FetchError, stringify: Json -> string): (m: string)
    ensures e.RequestFailed? ==>
      && RequestFailedPrefix <= m
      && OccursAt(m, IntToString(e.status), |RequestFailedPrefix|)
      && |m| == |RequestFailedPrefix| + |IntToString(e.status)| + 1 + |e.body|
      && m[|RequestFailedPrefix| + |IntToString(e.status)|] == ' '
      && |e.body| <= |m| && m[|m| - |e.body|..] == e.body
    ensures e.GraphQLErrors? ==>
      && GraphQLErrorsPrefix <= m
      && m[|GraphQLErrorsPrefix|..] == stringify(e.errors)
  {
    match e
    case RequestFailed(status, body) => RequestFailedPrefix + IntToString(status) + " " + body
    case GraphQLErrors(errors) => GraphQLErrorsPrefix + stringify(errors)
  }

  // ----- Normalisation (`getFeaturedProducts`) -----

  /** The result of `Number(amount)`; the conversion itself is a parameter. */
  datatype Number = NaN | Finite(value: real) | Infinity(negative: bool)

  datatype Price = Price(amount: Number, currencyCode: string)

  /** The display record every UI component consumes. */
  datatype Product = Product(
    id: string,
    title: string,
    handle: string,
    productType: string,
    tags: seq<string>,
    description: string,
    image: Option<Image>,
    images: seq<Image>,
    price: Option<Price>)

  /** `(node?.images?.edges || []).map((e) => e.node)`. */
  function ImagesOf(node: RawNode): (r: seq<Image>)
    ensures node.images.None? || node.images.value.edges.None? ==> r == []
    ensures node.images.Some? && node.images.value.edges.Some? ==>
      |r| == |node.images.value.edges.value|
      && forall i :: 0 <= i < |r| ==> r[i] == node.images.value.edges.value[i].node
  {
    match node.images
    case Some(ImageConnection(Some(edges))) => seq(|edges|, i requires 0 <= i < |edges| => edges[i].node)
    case _ => []
  }

  /** `node?.priceRange?.minVariantPrice`. */
  function MinVariantPrice(node: RawNode): (m: Option<Money>)
    ensures node.priceRange.None? ==> m.None?
    ensures node.priceRange.Some? ==> m == node.priceRange.value.minVariantPrice
  {
    match node.priceRange
    case Some(range) => range.minVariantPrice
    case None => None
  }

  /** The mapper applied to each edge: copies the identity fields and gives every
      optional field its fallback. */
  function ToProduct(node: RawNode, toNumber: string -> Number): (p: Product)
    ensures p.id == node.id && p.title == node.title && p.handle == node.handle
    ensures p.productType != ""
    ensures Truthy(node.productType) ==> p.productType == node.productType.value
    ensures !Truthy(node.productType) ==> p.productType == DefaultProductType
    ensures p.tags == node.tags.GetOr([])
    ensures p.description == node.description.GetOr("")
    ensures p.images == ImagesOf(node)
    ensures node.featuredImage.Some? ==> p.image == node.featuredImage
    ensures node.featuredImage.None? && p.images != [] ==> p.image == Some(p.images[0])
    ensures p.image.None? <==> node.featuredImage.None? && p.images == []
    ensures p.price.None? <==> MinVariantPrice(node).None?
    ensures p.price.Some? ==>
      p.price.value.currencyCode == MinVariantPrice(node).value.currencyCode
      && p.price.value.amount == toNumber(MinVariantPrice(node).value.amount)
  {
    var images := ImagesOf(node);
    Product(
      node.id,
      node.title,
      node.handle,
      if Truthy(node.productType) then node.productType.value else DefaultProductType,
      node.tags.GetOr([]),
      node.description.GetOr(""),
      if node.featuredImage.Some? then node.featuredImage
      else if images != [] then Some(images[0])
      else None,
      images,
      match MinVariantPrice(node)
      case Some(m) => Some(Price(toNumber(m.amount), m.currencyCode))
      case None => None)
  }

  /** `json?.data?.products?.edges || []`. */
  function EdgesOf(json: Payload): (edges: seq<Edge>)
    ensures json.data.None? || json.data.value.products.None? ==> edges == []
    ensures json.data.Some? && json.data.value.products.Some? ==>
      edges == json.data.value.products.value.edges.GetOr([])
  {
    match json.data
    case Some(Data(Some(ProductConnection(Some(edges))))) => edges
    case _ => []
  }

  /** `edges.map(({ node }) => ...)`. */
  function MapEdges(edges: seq<Edge>, toNumber: string -> Number): (ps: seq<Product>)
    ensures |ps| == |edges|
    ensures forall i :: 0 <= i < |edges| ==> ps[i] == ToProduct(edges[i].node, toNumber)
  {
    if edges == [] then []
    else [ToProduct(edges[0].node, toNumber)] + MapEdges(edges[1..], toNumber)
  }

  /** `getFeaturedProducts`: fetch one page and normalise every node, in order. */
  function GetFeaturedProducts(env: Env, count: Option<int>, response: Response, toNumber: string -> Number)
    : (x: Exchange<seq<Product>>)
    ensures x.request.None? <==> !Configured(env)
    ensures x.request.Some? ==> x.request.value.variables.first == count.GetOr(12)
    ensures !Configured(env) ==> x.result == Success([])
    ensures x.result.Failure? <==> ShopifyFetch(env, FeaturedVariables(count), response).result.Failure?
    ensures x.result.Failure? ==> x.result.error == ShopifyFetch(env, FeaturedVariables(count), response).result.error
    ensures Configured(env) && x.result.Success? ==>
      |x.result.value| == |EdgesOf(response.json)|
      && forall i :: 0 <= i < |x.result.value| ==>
        x.result.value[i] == ToProduct(EdgesOf(response.json)[i].node, toNumber)
  {
    var fetched := ShopifyFetch(env, FeaturedVariables(count), response);
    match fetched.result
    case Failure(e) => Exchange(fetched.request, Failure(e))
    case Success(json) => Exchange(fetched.request, Success(MapEdges(EdgesOf(json), toNumber)))
  }

  /** A bare node with only identity fields, empty tags, an empty image list and
      a price normalises to the record below. */
  lemma BareNodeExample(toNumber: string -> Number)
    requires toNumber("42") == Finite(42.0)
    ensures ToProduct(
      RawNode("1", "Shelf A", "shelf-a", None, Some([]), None, None,
        Some(ImageConnection(Some([]))), Some(PriceRange(Some(Money("42", "USD"))))),
      toNumber)
      == Product("1", "Shelf A", "shelf-a", "Shelving", [], "", None, [], Some(Price(Finite(42.0), "USD")))
  {
  }

  /** A normalised product written back as a raw node with every field present. */
  function ToRaw(p: Product, fromNumber: Number -> string): (node: RawNode)
    ensures node.id == p.id && node.title == p.title && node.handle == p.handle
    ensures node.featuredImage == p.image
    ensures (p.price.None? ==> MinVariantPrice(node).None?)
    ensures (p.price.Some? ==> MinVariantPrice(node) == Some(Money(fromNumber(p.price.value.amount), p.price.value.currencyCode)))
  {
    RawNode(
      p.id, p.title, p.handle, Some(p.productType), Some(p.tags), Some(p.description), p.image,
      Some(ImageConnection(Some(seq(|p.images|, i requires 0 <= i < |p.images| => ImageEdge(p.images[i]))))),
      Some(PriceRange(
        match p.price
        case Some(pr) => Some(Money(fromNumber(pr.amount), pr.currencyCode))
        case None => None)))
  }

  /** Normalised products are the fixed points of the mapper: a product with a
      non-empty type, whose image is set whenever it has images, comes back
      unchanged from its raw form, provided the amount conversion reads back. */
  lemma NormalFormRoundTrip(p: Product, toNumber: string -> Number, fromNumber: Number -> string)
    requires p.productType != ""
    requires p.image.None? ==> p.images == []
    requires p.price.Some? ==> toNumber(fromNumber(p.price.value.amount)) == p.price.value.amount
    ensures ToProduct(ToRaw(p, fromNumber), toNumber) == p
  {
    var node := ToRaw(p, fromNumber);
    assert ImagesOf(node) == p.images;
  }
}
