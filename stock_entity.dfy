/**
 * The persistent store's managed `Stock` object: eleven mutable attributes
 * and `update(with:)`, which overwrites every one of them from a
 * persistable value.
 */
module StockEntity {
  import opened StockModel

  class Stock {
    var symbol: string
    var name: Option<string>
    var price: Double
    var percentageChange: Double
    var changes: Double
    var lastDividend: Double
    var sector: Option<string>
    var industry: Option<string>
    var companyLogo: Option<string>
    var isFavorite: bool
    var hasProfileData: bool

    /** The object's attributes read as one value. */
    function Record(): StockRecord
      reads this
    {
      StockRecord(symbol, name, price, percentageChange, changes, lastDividend,
                  sector, industry, companyLogo, isFavorite, hasProfileData)
    }

    /** `Stock(context:)`: a newly inserted object, every attribute at its default. */
    constructor Inserted()
      ensures Record() == StockRecord("", None, 0.0, 0.0, 0.0, 0.0, None, None, None, false, false)
    {
      symbol, name, price, percentageChange, changes, lastDividend := "", None, 0.0, 0.0, 0.0, 0.0;
      sector, industry, companyLogo, isFavorite, hasProfileData := None, None, None, false, false;
    }

    /** An object that a fetch request materialised from a stored row. */
    constructor Fetched(row: StockRecord)
      ensures Record() == row
    {
      symbol, name, price, percentageChange, changes, lastDividend :=
        row.symbol, row.name, row.price, row.percentageChange, row.changes, row.lastDividend;
      sector, industry, companyLogo, isFavorite, hasProfileData :=
        row.sector, row.industry, row.companyLogo, row.isFavorite, row.hasProfileData;
    }

    /**
     * `update(with:)`: each attribute is assigned from `stock`, so the new
     * record is `stock` itself, whatever the object held before, favourite
     * flag and profile flag included.
     */
    method Update(stock: StockRecord)
      modifies this
      ensures Record() == stock
      ensures symbol == stock.symbol && isFavorite == stock.isFavorite && hasProfileData == stock.hasProfileData
    {
      companyLogo := stock.companyLogo;
      industry := stock.industry;
      lastDividend := stock.lastDividend;
      name := stock.name;
      percentageChange := stock.percentageChange;
      changes := stock.changes;
      price := stock.price;
      sector := stock.sector;
      symbol := stock.symbol;
      isFavorite := stock.isFavorite;
      hasProfileData := stock.hasProfileData;
    }
  }

  /**
   * Updating twice with the same value leaves an object in the same state as
   * updating once, and two objects that started out differently end up equal.
   */
  method UpdateIdempotent(once: Stock, twice: Stock, stock: StockRecord)
    requires once != twice
    modifies once, twice
    ensures once.Record() == twice.Record() == stock
  {
    once.Update(stock);
    twice.Update(stock);
    twice.Update(stock);
  }
}
