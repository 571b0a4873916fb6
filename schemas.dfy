/** The records the catalog parser produces and the spreadsheet and the bot consume. */
module Schemas {

  /** `ParseResult`: one gallery image of one product page; `orderNumber` defaults to "". */
  datatype ParseResult = ParseResult(model: string, imageUrl: string, position: int, category: string,
                                     pageUrl: string, orderNumber: string)

  /** `ParseStats`: the parser's counters and its error messages, in order. */
  datatype ParseStats = ParseStats(catalogsTotal: nat, catalogsParsed: nat, catalogsFailed: nat,
                                   productsTotal: nat, productsParsed: nat, productsFailed: nat,
                                   imagesTotal: nat, errors: seq<string>)

  /** A fresh `ParseStats()`: every counter 0, no errors. */
  const NO_STATS := ParseStats(0, 0, 0, 0, 0, 0, 0, [])
}
