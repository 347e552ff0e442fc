/** The side of an order, a trade's taker, or a fill. */
module Trading {
  datatype Side = Buy | Sell
}
