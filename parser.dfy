/**
 * The catalog parser: it walks the shop's menu to its catalogs, each catalog to its product
 * pages and each product page to one record per gallery image, counting what was parsed and
 * what failed. The HTTP requests and their JSON bodies are parameters: a request that raises is
 * an `Err` carrying the exception's text.
 */
module Parser {
  import opened Wrappers
  import opened Schemas

  /** The catalog `parse_catalog` skips without a request. */
  const CHAIRS := "/products/accessories/chairs/"

  const DEFAULT_CATEGORY := "достал херню"
  const NO_CATEGORY := "не найдено"
  const PRODUCT_TYPE := "Product"

  const MENU_ERROR := "Failed to parse menu: "
  const CATALOG_ERROR := "Failed to parse catalog "
  const PRODUCT_ERROR := "Failed to parse product "

  /** A node of the page's "json_ld" "@graph": its "@type" and "category", when present. */
  datatype GraphNode = GraphNode(nodeType: Option<string>, category: Option<string>)

  /** An entry of "gallery_images": its "full_jpeg" path, when present. */
  datatype GalleryImage = GalleryImage(fullJpeg: Option<string>)

  /** The decoded product page: "url", the content's "model" and "gallery_images", and the "@graph". */
  datatype ProductPage = ProductPage(url: string, model: Option<string>, gallery: seq<GalleryImage>,
                                     graph: seq<GraphNode>)

  // ----- parse_menu -----

  /** The catalog URLs of every menu category, category by category. */
  function Flatten(categories: seq<seq<string>>): seq<string> {
    if categories == [] then []
    else Flatten(categories[..|categories| - 1]) + categories[|categories| - 1]
  }

  /** A URL is listed exactly when some category lists it. */
  lemma {:induction false} FlattenMembers(categories: seq<seq<string>>, u: string)
    ensures u in Flatten(categories) <==> exists i :: 0 <= i < |categories| && u in categories[i]
  {
    if categories != [] {
      var n := |categories| - 1;
      FlattenMembers(categories[..n], u);
      assert forall i :: 0 <= i < n ==> categories[..n][i] == categories[i];
    }
  }

  /**
   * `parse_menu`: `menu` is the menu request, as the "url" of every catalog item of every
   * category item.
   */
  method ParseMenu(menu: Result<seq<seq<string>>>) returns (r: Result<seq<string>>)
    ensures menu.Err? ==> r == Err(menu.msg)
    ensures menu.Ok? ==> r == Ok(Flatten(menu.value))
  {
    if menu.Err? {
      return Err(menu.msg);
    }
    var categories := menu.value;
    var urls: seq<string> := [];
    for i := 0 to |categories|
      invariant urls == Flatten(categories[..i])
    {
      assert categories[..i + 1][..i] == categories[..i];
      var items := categories[i];
      for j := 0 to |items|
        invariant urls == Flatten(categories[..i]) + items[..j]
      {
        assert items[..j + 1] == items[..j] + [items[j]];
        urls := urls + [items[j]];
      }
      assert items[..|items|] == items;
    }
    assert categories[..|categories|] == categories;
    return Ok(urls);
  }

  // ----- parse_catalog -----

  /** `parse_catalog(url)`: `page` is the catalog request, as the "url" of every catalog item. */
  function ParseCatalog(url: string, page: string -> Result<seq<string>>): Result<seq<string>> {
    if url == CHAIRS then Ok([]) else page(url)
  }

  // ----- _extract_category -----

  /** `_extract_category`: the first Product node's category, defaulted; "не найдено" without one. */
  function ExtractCategory(graph: seq<GraphNode>): string {
    if graph == [] then NO_CATEGORY
    else if graph[0].nodeType == Some(PRODUCT_TYPE) then graph[0].category.GetOr(DEFAULT_CATEGORY)
    else ExtractCategory(graph[1..])
  }

  /** The category comes from the first node typed "Product". */
  lemma {:induction false} ExtractCategoryFirst(graph: seq<GraphNode>, i: nat)
    requires i < |graph| && graph[i].nodeType == Some(PRODUCT_TYPE)
    requires forall k :: 0 <= k < i ==> graph[k].nodeType != Some(PRODUCT_TYPE)
    ensures ExtractCategory(graph) == graph[i].category.GetOr(DEFAULT_CATEGORY)
  {
    if i > 0 {
      assert graph[0].nodeType != Some(PRODUCT_TYPE);
      assert forall k :: 0 <= k < i - 1 ==> graph[1..][k] == graph[k + 1];
      ExtractCategoryFirst(graph[1..], i - 1);
    }
  }

  /** Without a node typed "Product" the category is "не найдено". */
  lemma {:induction false} ExtractCategoryNone(graph: seq<GraphNode>)
    requires forall k :: 0 <= k < |graph| ==> graph[k].nodeType != Some(PRODUCT_TYPE)
    ensures ExtractCategory(graph) == NO_CATEGORY
  {
    if graph != [] {
      assert forall k :: 0 <= k < |graph| - 1 ==> graph[1..][k] == graph[k + 1];
      ExtractCategoryNone(graph[1..]);
    }
  }

  // ----- parse_product -----

  /** The record of gallery image `i` of a product page, with `cdn` the CDN URL prefix. */
  function Record(page: ProductPage, cdn: string, i: nat): ParseResult
    requires i < |page.gallery|
  {
    ParseResult(page.model.GetOr(""), cdn + page.gallery[i].fullJpeg.GetOr(""), i + 1,
                ExtractCategory(page.graph), page.url, "")
  }

  /** The records of one product page, in gallery order. */
  function ProductRecords(page: ProductPage, cdn: string): seq<ParseResult> {
    seq(|page.gallery|, i requires 0 <= i < |page.gallery| => Record(page, cdn, i))
  }

  /**
   * `parse_product` once its request succeeded: one record per gallery image, numbered from 1,
   * all with the page's model, category and URL.
   */
  method ParseProduct(page: ProductPage, cdn: string) returns (result: seq<ParseResult>)
    ensures result == ProductRecords(page, cdn)
    ensures |result| == |page.gallery|
    ensures forall i :: 0 <= i < |result| ==>
              && result[i].position == i + 1
              && result[i].imageUrl == cdn + page.gallery[i].fullJpeg.GetOr("")
              && result[i].model == page.model.GetOr("")
              && result[i].category == ExtractCategory(page.graph)
              && result[i].pageUrl == page.url
              && result[i].orderNumber == ""
  {
    var model := page.model.GetOr("");
    var category := ExtractCategory(page.graph);
    result := [];
    for index := 0 to |page.gallery|
      invariant result == ProductRecords(page, cdn)[..index]
    {
      var item := ParseResult(model, cdn + page.gallery[index].fullJpeg.GetOr(""), index + 1,
                              category, page.url, "");
      result := result + [item];
    }
  }

  // ----- parse: the catalog pass -----

  /** What the catalog loop accumulates: product URLs, counters and error messages. */
  datatype CatalogPass = CatalogPass(products: seq<string>, parsed: nat, failed: nat, errors: seq<string>)

  function CatalogStep(p: CatalogPass, url: string, page: string -> Result<seq<string>>): CatalogPass {
    match ParseCatalog(url, page)
    case Ok(us) => p.(products := p.products + us, parsed := p.parsed + 1)
    case Err(e) => p.(failed := p.failed + 1, errors := p.errors + [CATALOG_ERROR + url + ": " + e])
  }

  /** The catalog loop over `urls`. */
  function Catalogs(urls: seq<string>, page: string -> Result<seq<string>>): CatalogPass {
    if urls == [] then CatalogPass([], 0, 0, [])
    else CatalogStep(Catalogs(urls[..|urls| - 1], page), urls[|urls| - 1], page)
  }

  /** Every catalog is counted once, as parsed or as failed, and every failure leaves one message. */
  lemma {:induction false} CatalogsCounts(urls: seq<string>, page: string -> Result<seq<string>>)
    ensures var p := Catalogs(urls, page);
            p.parsed + p.failed == |urls| && |p.errors| == p.failed
  {
    if urls != [] {
      CatalogsCounts(urls[..|urls| - 1], page);
    }
  }

  /** The chairs catalog's page is never consulted: pages that differ only there give the same pass. */
  lemma {:induction false} ChairsPageIgnored(urls: seq<string>, page: string -> Result<seq<string>>,
                                            other: string -> Result<seq<string>>)
    requires forall u :: u != CHAIRS ==> page(u) == other(u)
    ensures Catalogs(urls, page) == Catalogs(urls, other)
  {
    if urls != [] {
      ChairsPageIgnored(urls[..|urls| - 1], page, other);
      assert ParseCatalog(urls[|urls| - 1], page) == ParseCatalog(urls[|urls| - 1], other);
    }
  }

  // ----- parse: the product pass -----

  /** What the product loop accumulates: records, counters and error messages. */
  datatype ProductPass = ProductPass(records: seq<ParseResult>, parsed: nat, failed: nat, images: nat,
                                     errors: seq<string>)

  function ProductStep(p: ProductPass, url: string, page: string -> Result<ProductPage>, cdn: string)
    : ProductPass
  {
    match page(url)
    case Ok(pg) =>
      var items := ProductRecords(pg, cdn);
      p.(records := p.records + items, parsed := p.parsed + 1, images := p.images + |items|)
    case Err(e) => p.(failed := p.failed + 1, errors := p.errors + [PRODUCT_ERROR + url + ": " + e])
  }

  /** The product loop over `urls`. */
  function Products(urls: seq<string>, page: string -> Result<ProductPage>, cdn: string): ProductPass {
    if urls == [] then ProductPass([], 0, 0, 0, [])
    else ProductStep(Products(urls[..|urls| - 1], page, cdn), urls[|urls| - 1], page, cdn)
  }

  /**
   * Every product is counted once, as parsed or as failed; every failure leaves one message; the
   * image count is the number of records.
   */
  lemma {:induction false} ProductsCounts(urls: seq<string>, page: string -> Result<ProductPage>, cdn: string)
    ensures var p := Products(urls, page, cdn);
            p.parsed + p.failed == |urls| && |p.errors| == p.failed && p.images == |p.records|
  {
    if urls != [] {
      ProductsCounts(urls[..|urls| - 1], page, cdn);
    }
  }

  /** A product whose request fails adds no record; one that succeeds adds its page's records. */
  lemma ProductsAppend(urls: seq<string>, url: string, page: string -> Result<ProductPage>, cdn: string)
    ensures Products(urls + [url], page, cdn).records
            == Products(urls, page, cdn).records + (if page(url).Ok? then ProductRecords(page(url).value, cdn) else [])
  {
    assert (urls + [url])[..|urls|] == urls;
  }

  // ----- parse -----

  /** The catalog loop of `parse`, counting into `stats`. */
  method ParseCatalogs(urls: seq<string>, page: string -> Result<seq<string>>, stats: ParseStats)
    returns (products: seq<string>, out: ParseStats)
    ensures var cp := Catalogs(urls, page);
            && products == cp.products
            && out == stats.(catalogsParsed := stats.catalogsParsed + cp.parsed,
                             catalogsFailed := stats.catalogsFailed + cp.failed,
                             errors := stats.errors + cp.errors)
  {
    products, out := [], stats;
    for i := 0 to |urls|
      invariant var cp := Catalogs(urls[..i], page);
                && products == cp.products
                && out == stats.(catalogsParsed := stats.catalogsParsed + cp.parsed,
                                 catalogsFailed := stats.catalogsFailed + cp.failed,
                                 errors := stats.errors + cp.errors)
    {
      assert urls[..i + 1][..i] == urls[..i];
      var url := urls[i];
      var found := ParseCatalog(url, page);
      if found.Ok? {
        products := products + found.value;
        out := out.(catalogsParsed := out.catalogsParsed + 1);
      } else {
        out := out.(catalogsFailed := out.catalogsFailed + 1,
                    errors := out.errors + [CATALOG_ERROR + url + ": " + found.msg]);
      }
    }
    assert urls[..|urls|] == urls;
  }

  /** The product loop of `parse`, counting into `stats`. */
  method ParseProducts(urls: seq<string>, page: string -> Result<ProductPage>, cdn: string, stats: ParseStats)
    returns (result: seq<ParseResult>, out: ParseStats)
    ensures var pp := Products(urls, page, cdn);
            && result == pp.records
            && out == stats.(productsParsed := stats.productsParsed + pp.parsed,
                             productsFailed := stats.productsFailed + pp.failed,
                             imagesTotal := stats.imagesTotal + pp.images,
                             errors := stats.errors + pp.errors)
  {
    result, out := [], stats;
    for i := 0 to |urls|
      invariant var pp := Products(urls[..i], page, cdn);
                && result == pp.records
                && out == stats.(productsParsed := stats.productsParsed + pp.parsed,
                                 productsFailed := stats.productsFailed + pp.failed,
                                 imagesTotal := stats.imagesTotal + pp.images,
                                 errors := stats.errors + pp.errors)
    {
      assert urls[..i + 1][..i] == urls[..i];
      var url := urls[i];
      var fetched := page(url);
      if fetched.Ok? {
        var items := ParseProduct(fetched.value, cdn);
        result := result + items;
        out := out.(productsParsed := out.productsParsed + 1, imagesTotal := out.imagesTotal + |items|);
      } else {
        out := out.(productsFailed := out.productsFailed + 1,
                    errors := out.errors + [PRODUCT_ERROR + url + ": " + fetched.msg]);
      }
    }
    assert urls[..|urls|] == urls;
  }


  /**
   * `parse`: `menu` is the menu request, `catalogPage` and `productPage` the catalog and product
   * requests, `cdn` the CDN URL prefix. A failed menu ends the run with that one error; otherwise
   * every catalog and then every product is tried, failures counted and recorded, never raised.
   */
  method Parse(menu: Result<seq<seq<string>>>, catalogPage: string -> Result<seq<string>>,
               productPage: string -> Result<ProductPage>, cdn: string)
    returns (result: seq<ParseResult>, stats: ParseStats)
    ensures menu.Err? ==> result == [] && stats == NO_STATS.(errors := [MENU_ERROR + menu.msg])
    ensures menu.Ok? ==>
              var catalogs := Flatten(menu.value);
              var cp := Catalogs(catalogs, catalogPage);
              var pp := Products(cp.products, productPage, cdn);
              && result == pp.records
              && stats == ParseStats(|catalogs|, cp.parsed, cp.failed, |cp.products|, pp.parsed, pp.failed,
                                     pp.images, cp.errors + pp.errors)
    ensures stats.catalogsParsed + stats.catalogsFailed == stats.catalogsTotal
    ensures stats.productsParsed + stats.productsFailed == stats.productsTotal
    ensures stats.imagesTotal == |result|
    ensures |stats.errors| == if menu.Err? then 1 else stats.catalogsFailed + stats.productsFailed
  {
    result := [];
    stats := NO_STATS;
    var m := ParseMenu(menu);
    if m.Err? {
      stats := stats.(errors := stats.errors + [MENU_ERROR + m.msg]);
      return;
    }
    var catalogUrls := m.value;
    stats := stats.(catalogsTotal := |catalogUrls|);
    var productsUrls;
    productsUrls, stats := ParseCatalogs(catalogUrls, catalogPage, stats);
    stats := stats.(productsTotal := |productsUrls|);
    result, stats := ParseProducts(productsUrls, productPage, cdn, stats);
    CatalogsCounts(catalogUrls, catalogPage);
    ProductsCounts(productsUrls, productPage, cdn);
  }
}
