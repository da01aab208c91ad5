/** An in-memory stand-in for the producer and product collections, and the
    per-row import that writes one producer and one product. */
module Store {
  import opened Rows

  /** The two collections; a record's id is its position, so every insert
      gets an id no earlier record has. */
  class Catalog {
    var producers: seq<Producer>
    var products: seq<Product>

    /** Every product refers to a stored producer. */
    predicate Linked()
      reads this
    {
      forall j :: 0 <= j < |products| ==> products[j].producerId < |producers|
    }

    constructor ()
      ensures producers == [] && products == [] && Linked()
    {
      producers := [];
      products := [];
    }

    /** Inserts a producer and returns the stored record's fresh id. */
    method AddProducer(p: Producer) returns (id: Id)
      modifies this
      ensures producers == old(producers) + [p] && products == old(products)
      ensures id == |old(producers)| && producers[id] == p
      ensures old(Linked()) ==> Linked()
    {
      id := |producers|;
      producers := producers + [p];
    }

    /** Inserts a product and returns the stored record's fresh id. */
    method AddProduct(p: Product) returns (id: Id)
      modifies this
      ensures products == old(products) + [p] && producers == old(producers)
      ensures id == |old(products)| && products[id] == p
      ensures old(Linked()) && p.producerId < |producers| ==> Linked()
    {
      id := |products|;
      products := products + [p];
    }

    /** Imports one row: stores its producer, then its product linked to that
        producer; nothing else changes. */
    method ImportProduct(row: ProductRow)
      modifies this
      ensures producers == old(producers) + [ToProducer(row)]
      ensures products == old(products) + [ToProduct(row, |old(producers)|)]
      ensures producers[products[|products| - 1].producerId] == ToProducer(row)
      ensures old(Linked()) ==> Linked()
    {
      var producerId := AddProducer(ToProducer(row));
      var _ := AddProduct(ToProduct(row, producerId));
    }
  }
}
