/** The custom document: the head tags it renders from the store's title,
    description, favicon and image, and `getInitialProps`, which looks the
    store up by the first label of the request's host. The two store
    endpoints are parameters: `lookupStore` answers the lookup by
    subdomain or domain with a store id, or with nothing when the answer
    has no `store`; `fetchStore` answers the store request with the store
    record, or with nothing when the answer has no `store`. */
module DocumentHead {
  import opened Text
  import Subdomain

  /** `title`, `description`, `favIcon`, `image`: each may be missing. */
  datatype DocumentProps = DocumentProps(
    title: Option<string>, description: Option<string>, favIcon: Option<string>, image: Option<string>)

  /** A tag of the document head. */
  datatype HeadTag =
    | Icon(href: string)
    | Title(text: string)
    | MetaName(name: string, content: string)
    | MetaProperty(property: string, content: string)

  /** JavaScript truthiness of an optional string: present and not empty. */
  predicate Truthy(o: Option<string>)
  {
    o.Some? && o.value != ""
  }

  const FallbackTitle: string := "404 - Loja não encontrada"

  /** `cond && <tag />`: the tag, or nothing. */
  function When(cond: bool, tag: HeadTag): (tags: seq<HeadTag>)
    ensures tags == if cond then [tag] else []
  {
    if cond then [tag] else []
  }

  /** The content of the tag a truthy field produces. */
  function ValueOr(o: Option<string>): string
  {
    if o.Some? then o.value else ""
  }

  /** The children of `<Head>`, in document order. */
  function HeadTags(p: DocumentProps): (tags: seq<HeadTag>)
  {
    When(Truthy(p.favIcon), Icon(ValueOr(p.favIcon)))
    + [Title(if Truthy(p.title) then p.title.value else FallbackTitle)]
    + When(Truthy(p.description), MetaName("description", ValueOr(p.description)))
    + When(Truthy(p.image), MetaProperty("og:image", ValueOr(p.image)))
    + When(Truthy(p.title), MetaProperty("og:title", ValueOr(p.title)))
    + When(Truthy(p.description), MetaProperty("og:description", ValueOr(p.description)))
    + [MetaProperty("og:type", "website")]
    + When(Truthy(p.image), MetaName("twitter:card", "summary_large_image"))
    + When(Truthy(p.title), MetaName("twitter:title", ValueOr(p.title)))
    + When(Truthy(p.description), MetaName("twitter:description", ValueOr(p.description)))
    + When(Truthy(p.image), MetaName("twitter:image", ValueOr(p.image)))
  }

  /** There is exactly one title; it is the store's title when that is
      present and not empty, the not-found text otherwise. */
  lemma TitleFallback(p: DocumentProps)
    ensures var tags := HeadTags(p);
      && (Truthy(p.title) ==> Title(p.title.value) in tags)
      && (!Truthy(p.title) ==> Title(FallbackTitle) in tags)
      && (forall t :: t in tags && t.Title? ==> t.text == (if Truthy(p.title) then p.title.value else FallbackTitle))
  {
  }

  /** `og:type` is always there; the large-image Twitter card is there
      exactly when the image is truthy. */
  lemma AlwaysAndImageTags(p: DocumentProps)
    ensures MetaProperty("og:type", "website") in HeadTags(p)
    ensures MetaName("twitter:card", "summary_large_image") in HeadTags(p) <==> Truthy(p.image)
  {
  }

  /** The icon link is there exactly when the favicon is truthy, and then
      points at it. */
  lemma IconFollowsFavIcon(p: DocumentProps, v: string)
    ensures Icon(v) in HeadTags(p) <==> Truthy(p.favIcon) && v == p.favIcon.value
  {
  }

  /** The three description tags are there exactly when the description is
      truthy, and then carry it. */
  lemma DescriptionTagsFollowDescription(p: DocumentProps, v: string)
    ensures MetaName("description", v) in HeadTags(p) <==> Truthy(p.description) && v == p.description.value
    ensures MetaProperty("og:description", v) in HeadTags(p) <==> Truthy(p.description) && v == p.description.value
    ensures MetaName("twitter:description", v) in HeadTags(p) <==> Truthy(p.description) && v == p.description.value
  {
    assert MetaName("description", v) in HeadTags(p) <==> Truthy(p.description) && v == p.description.value;
    assert MetaProperty("og:description", v) in HeadTags(p) <==> Truthy(p.description) && v == p.description.value;
  }

  /** The two title metas are there exactly when the title is truthy, and
      then carry it. */
  lemma TitleMetasFollowTitle(p: DocumentProps, v: string)
    ensures MetaProperty("og:title", v) in HeadTags(p) <==> Truthy(p.title) && v == p.title.value
    ensures MetaName("twitter:title", v) in HeadTags(p) <==> Truthy(p.title) && v == p.title.value
  {
  }

  /** The two image metas are there exactly when the image is truthy, and
      then carry it. */
  lemma ImageMetasFollowImage(p: DocumentProps, v: string)
    ensures MetaProperty("og:image", v) in HeadTags(p) <==> Truthy(p.image) && v == p.image.value
    ensures MetaName("twitter:image", v) in HeadTags(p) <==> Truthy(p.image) && v == p.image.value
  {
  }

  function Indicator(b: bool): nat
  {
    if b then 1 else 0
  }

  /** The head holds the title and `og:type`, plus one tag for the favicon,
      two for the title and three each for the description and the image. */
  lemma TagCount(p: DocumentProps)
    ensures |HeadTags(p)| == 2 + Indicator(Truthy(p.favIcon)) + 2 * Indicator(Truthy(p.title))
      + 3 * Indicator(Truthy(p.description)) + 3 * Indicator(Truthy(p.image))
  {
  }

  /** What `ctx.renderPage()` produced, with the four document fields it
      may already carry. */
  datatype InitialProps = InitialProps(html: string, document: DocumentProps)

  /** The `store` record of the store answer. */
  datatype StoreRecord = StoreRecord(
    title: Option<string>, description: Option<string>, favIcon: Option<string>, image: Option<string>)

  /** The request headers the document reads. */
  datatype Request = Request(host: Option<string>)

  /** `getInitialProps` settles with props, or rejects with the `TypeError`
      of reading `data.store.title` when the store answer has no `store`. */
  datatype InitialOutcome = Resolved(props: InitialProps) | TypeError

  /** `getInitialProps`: without a request, or when the lookup finds no
      store, the rendered props unchanged; otherwise the rendered props with
      the four document fields replaced by the store record's. */
  function GetInitialProps(
    initial: InitialProps, req: Option<Request>,
    lookupStore: string -> Option<int>, fetchStore: int -> Option<StoreRecord>): (r: InitialOutcome)
    ensures req.None? ==> r == Resolved(initial)
    ensures r.Resolved? ==> r.props.html == initial.html
  {
    if req.None? then Resolved(initial)
    else
      var subOrDomain := Subdomain.GetFirstSubdomain(req.value.host);
      var storeId := lookupStore(subOrDomain);
      if storeId.None? then Resolved(initial)
      else
        var data := fetchStore(storeId.value);
        if data.None? then TypeError
        else
          var s := data.value;
          Resolved(initial.(document := DocumentProps(s.title, s.description, s.favIcon, s.image)))
  }

  /** The lookup is made for the first label of the host; when it finds no
      store the rendered props come back unchanged, when it finds one the
      store's four fields replace the rendered ones and nothing else
      changes. */
  lemma InitialPropsCases(
    initial: InitialProps, host: Option<string>,
    lookupStore: string -> Option<int>, fetchStore: int -> Option<StoreRecord>)
    ensures var r := GetInitialProps(initial, Some(Request(host)), lookupStore, fetchStore);
      var id := lookupStore(Subdomain.GetFirstSubdomain(host));
      && (id.None? ==> r == Resolved(initial))
      && (id.Some? && fetchStore(id.value).None? ==> r == TypeError)
      && (id.Some? && fetchStore(id.value).Some? ==>
            var s := fetchStore(id.value).value;
            r == Resolved(InitialProps(initial.html, DocumentProps(s.title, s.description, s.favIcon, s.image))))
  {
  }

  /** A store found for the host `loja.wizesale.com` is looked up as
      `loja`, and its title reaches the head in place of the fallback. */
  lemma StoreTitleReachesHead(initial: InitialProps, s: StoreRecord)
    requires Truthy(s.title)
    ensures var lookup := (sub: string) => if sub == "loja" then Some(7) else None;
      var fetch := (id: int) => if id == 7 then Some(s) else None;
      var r := GetInitialProps(initial, Some(Request(Some("loja.wizesale.com"))), lookup, fetch);
      && r.Resolved?
      && r.props.document.title == s.title
      && Title(s.title.value) in HeadTags(r.props.document)
  {
    var lookup := (sub: string) => if sub == "loja" then Some(7) else None;
    var fetch := (id: int) => if id == 7 then Some(s) else None;
    Subdomain.FirstSubdomainUnique("loja.wizesale.com", "loja");
    assert lookup("loja") == Some(7);
    assert fetch(7) == Some(s);
    var d := DocumentProps(s.title, s.description, s.favIcon, s.image);
    assert GetInitialProps(initial, Some(Request(Some("loja.wizesale.com"))), lookup, fetch)
      == Resolved(initial.(document := d));
    TitleFallback(d);
  }
}
