/** The records the services exchange, and the exceptions they raise. */
module Models {
  import opened Wrappers

  /** The exceptions the core raises or lets through. */
  datatype Error =
    | HttpStatus(code: int, message: string)   // HttpStatusCodeException
    | Upstream(reason: string)                 // whatever the price-service client threw
    | FileNotFound                             // FileNotFoundException
    | JsonError                                // JsonException on unparsable file content
    | NullReference                            // member access on a null reference
    | ArgumentNull                             // long.Parse(null)
    | BadNumber                                // FormatException or OverflowException from long.Parse
    | ArgumentOutOfRange                       // Enumerable.Range with a negative count

  type Res<T> = Result<T, Error>

  /** A reply of the price-service client: it throws, returns JSON null, or returns a value. */
  type Reply<T> = Result<Option<T>, Error>

  /** A C# string reference, possibly null. */
  type NullableString = Option<string>

  /** One coin as the price service lists it; every field is text, the price included. */
  datatype Ticker = Ticker(id: NullableString, symbol: NullableString, priceUsd: NullableString)

  /** The catalogue metadata; only the coin count is used. */
  datatype GlobalData = GlobalData(coinsCount: int)

  /** One holding. `id` is the upstream id, left at its default 0 by the upload parser. */
  datatype PortfolioItem = PortfolioItem(id: int, quantity: real, coin: string, initialPrice: real)

  /** The persisted symbol-to-id index (`Dictionary<string, long>`). */
  type SymbolMap = map<string, int>

  /** Prices by symbol (`Dictionary<string, decimal>`); `decimal` is modelled as exact `real`. */
  type PriceMap = map<string, real>

  /** What the index file holds when it is read: nothing, a map, the JSON literal
      `null`, or content the JSON reader rejects. */
  datatype IndexFile = Missing | Valid(contents: SymbolMap) | NullJson | Corrupt

  /** `long.TryParse`: the parsed value, or `None` when the text is not a 64-bit integer. */
  type LongParser = string -> Option<int>

  /** `decimal.TryParse` with `NumberStyles.Any` and the invariant culture. */
  type DecimalParser = string -> Option<real>

  /** The exception both index builders raise when the catalogue metadata is null. */
  const GlobalDataMissing: Error := HttpStatus(400, "Failed to retrieve global data.")

  /** The exception the summary raises for an empty portfolio. */
  const PortfolioEmpty: Error := HttpStatus(400, "Portfolio is empty. Please upload a portfolio file.")
}
