/** The feed's row type and the mapping from a row to the two stored records. */
module Rows {
  import opened Results

  /** One parsed feed row: thirteen named string columns. */
  datatype ProductRow = ProductRow(
    vintage: string,
    productName: string,
    producer: string,
    country: string,
    region: string,
    colour: string,
    quantity: string,
    format: string,
    priceGbp: string,
    duty: string,
    availability: string,
    conditions: string,
    imageUrl: string)

  /** Number of columns the parser is configured with. */
  const ColumnCount: nat := 13

  /** The row's fields in the configured column order. */
  function Fields(row: ProductRow): (f: seq<string>)
    ensures |f| == ColumnCount
  {
    [row.vintage, row.productName, row.producer, row.country, row.region, row.colour,
     row.quantity, row.format, row.priceGbp, row.duty, row.availability, row.conditions,
     row.imageUrl]
  }

  /** Names the positional fields of one CSV record; a record with another
      number of fields is rejected. */
  function RowOf(fields: seq<string>): (r: Option<ProductRow>)
    ensures r.Some? <==> |fields| == ColumnCount
    ensures r.Some? ==> Fields(r.value) == fields
  {
    if |fields| != ColumnCount then None
    else Some(ProductRow(fields[0], fields[1], fields[2], fields[3], fields[4], fields[5],
                         fields[6], fields[7], fields[8], fields[9], fields[10], fields[11],
                         fields[12]))
  }

  /** Naming the columns loses nothing: a row is recovered from its fields. */
  lemma RowOfFields(row: ProductRow)
    ensures RowOf(Fields(row)) == Some(row)
  {
  }

  /** Opaque identifier the store assigns at insert time. */
  type Id = nat

  /** A producer record; empty optional columns are stored as absent. */
  datatype Producer = Producer(name: string, country: Option<string>, region: Option<string>)

  /** A product record, linked to its producer by id. */
  datatype Product = Product(name: string, vintage: string, producerId: Id)

  /** An optional text field: the empty string becomes absent. */
  function NonEmpty(s: string): (o: Option<string>)
    ensures o.None? <==> |s| == 0
    ensures o.GetOr("") == s
  {
    if |s| > 0 then Some(s) else None
  }

  /** The producer built from a row. */
  function ToProducer(row: ProductRow): (p: Producer)
    ensures p.name == row.producer
    ensures p.country.None? <==> row.country == ""
    ensures p.country.Some? ==> p.country.value == row.country
    ensures p.region.None? <==> row.region == ""
    ensures p.region.Some? ==> p.region.value == row.region
  {
    Producer(row.producer, NonEmpty(row.country), NonEmpty(row.region))
  }

  /** The product built from a row, referring to the producer stored under `producerId`. */
  function ToProduct(row: ProductRow, producerId: Id): (p: Product)
    ensures p.name == row.productName && p.vintage == row.vintage
    ensures p.producerId == producerId
  {
    Product(row.productName, row.vintage, producerId)
  }

  /** The normalisation is lossless: the row's producer, country and region
      columns can be read back from the producer record, and two rows give the
      same producer exactly when those three columns agree. */
  lemma ProducerDeterminedByColumns(a: ProductRow, b: ProductRow)
    ensures ToProducer(a).country.GetOr("") == a.country
    ensures ToProducer(a).region.GetOr("") == a.region
    ensures ToProducer(a) == ToProducer(b) <==>
              a.producer == b.producer && a.country == b.country && a.region == b.region
  {
  }
}
