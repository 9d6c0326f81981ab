/** The records the core works on (types.ts). Monetary amounts and rates are
    JavaScript numbers in the source; they are carried as `real` because the
    core only stores and copies them. */
module Types {

  import opened Wrappers

  /** `TaxRecord.status`: exactly one of `'paid'` and `'pending'`. */
  datatype Status = Paid | Pending

  /** One saved estimate in a user's history; `month` is the human-readable
      label the source builds from the period and the date. */
  datatype TaxRecord = TaxRecord(
    id: string,
    month: string,
    revenue: real,
    taxAmount: real,
    status: Status)

  /** `UserProfile`; the source's `type` field is `businessType` here, since
      `type` is a keyword. */
  datatype UserProfile = UserProfile(
    name: string,
    mst: string,
    businessType: string,
    avatarUrl: Option<string>,
    businessCategoryId: string,
    vatRate: real,
    pitRate: real)

  datatype TaxPeriod = Quarter | Year

  datatype PitMethod = Threshold | Expense

  /** `TaxCalculationData`: what the calculator hands over for a result to be
      saved. */
  datatype CalcData = CalcData(
    revenue: real,
    expenses: real,
    categoryLabel: string,
    vatRate: real,
    pitRate: real,
    period: TaxPeriod,
    pitMethod: PitMethod)
}
