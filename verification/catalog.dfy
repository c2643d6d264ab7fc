/** The product catalog of the vending console: an in-memory table from
    product id to name, unit price (whole CLP) and units in stock. */
module Catalog {

  /** One catalog record (`{"nombre", "precio", "cantidad"}` in main.py). */
  datatype Product = Product(name: string, price: int, stock: int)

  /** Product id to record. Python's dict keys are unbounded ints, and so are these. */
  type Catalog = map<int, Product>

  /** The shape every catalog the console starts from has: prices and stock are
      never negative. */
  ghost predicate WellFormed(c: Catalog)
  {
    forall id :: id in c ==> c[id].price >= 0 && c[id].stock >= 0
  }

  /** The fifteen products the console is seeded with. */
  const Seed: Catalog := map[
    1 := Product("Agua Mineral", 800, 20),
    2 := Product("Agua Saborizada", 1000, 12),
    3 := Product("Bebida Cola", 1000, 15),
    4 := Product("Bebida Naranja", 1200, 10),
    5 := Product("Té Helado", 1300, 14),
    6 := Product("Café Frío", 1500, 8),
    7 := Product("Jugo de Naranja", 1300, 10),
    8 := Product("Bebida Energética", 1500, 9),
    9 := Product("Bebida Deportiva", 1400, 11),
    10 := Product("Leche Chocolate", 1600, 7),
    11 := Product("Papas Fritas", 700, 18),
    12 := Product("Barra Chocolate", 1200, 16),
    13 := Product("Galletas", 800, 20),
    14 := Product("Frutos Secos", 1500, 6),
    15 := Product("Yogurt", 1200, 10)
  ]

  /** The seed catalog is well formed, uses the ids 1 to 15, never the
      sentinel 0, and every seeded price is positive. */
  lemma SeedWellFormed()
    ensures WellFormed(Seed)
    ensures forall id :: id in Seed <==> 1 <= id <= 15
    ensures 0 !in Seed
    ensures forall id :: id in Seed ==> Seed[id].price > 0
  {
  }

  /** Removes `qty` units of product `id` from stock. There is no floor check:
      keeping the stock non-negative is the caller's duty (the selection step
      only accepts quantities up to the stock). Nothing else in the catalog changes. */
  function Decrement(c: Catalog, id: int, qty: int): (r: Catalog)
    requires id in c
    ensures r.Keys == c.Keys
    ensures r[id].stock == c[id].stock - qty
    ensures r[id].name == c[id].name && r[id].price == c[id].price
    ensures forall p :: p in c && p != id ==> r[p] == c[p]
  {
    c[id := c[id].(stock := c[id].stock - qty)]
  }
}
