/** The rows the dashboard reads from its two store tables: `gelir_gider`
    (dated income and expense entries) and `sabit_gider` (recurring fixed
    charges with a paid flag). Amounts are exact integers in minor units. */
module Records {

  datatype Option<T> = None | Some(value: T)

  /** A calendar date as the triple (year, month, day). */
  datatype Date = Date(year: int, month: int, day: int)

  /** A row of `gelir_gider`: `tarih`, `aciklama`, `tutar` and `tur`.
      `tur` is free text in the store; only "Gelir" and "Gider" are counted. */
  datatype Transaction = Transaction(id: int, date: Date, description: string, amount: int, kind: string)

  /** A row of `sabit_gider`: `aciklama`, `tutar` and the `odendi` flag. */
  datatype FixedCharge = FixedCharge(id: int, description: string, amount: int, paid: bool)

  const Income: string := "Gelir"
  const Expense: string := "Gider"
}
