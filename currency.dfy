/** The money library's currency table, reduced to the two questions the rates
    code asks it: is a code known (Currency.find), and which ISO code does a
    known code name (Currency.wrap(code).iso_code). */
module Currency {

  /** Every spelling the table accepts, mapped to the ISO code it stands for. */
  datatype Registry = Registry(iso: map<string, string>) {
    predicate Known(code: string) {
      code in iso
    }

    function IsoCode(code: string): string
      requires Known(code)
    {
      iso[code]
    }
  }
}
