/** The table row the tracker builds for one coin. */
module Table {

  /**
   * One scraped market entry, with the columns `Time, Rank, Name, Price,
   * 1h, 24h, 7d, Market Cap` as rendered text, stamped with the capture time.
   */
  datatype Coin = Coin(
    time: string,
    rank: string,
    name: string,
    price: string,
    change1h: string,
    change24h: string,
    change7d: string,
    marketCap: string)
}
