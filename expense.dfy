/** The `Expense` entity and the `ExpenseDto` the API answers with. */
module ExpenseEntity {
  import opened Basics
  import opened Guids

  /** The largest magnitude, in cents, that a `decimal(18,2)` column holds:
      sixteen integer digits and two fractional ones. */
  const MaxAmountCents: int := 999_999_999_999_999_999

  /** A stored expense. The amount is in cents (the column keeps two
      fractional digits); instants are ticks. `category` is the enum's raw
      byte: the type admits every byte, of which only 1 to 7 name a category
      (`FromCode`). */
  datatype Expense = Expense(
    id: Guid,
    userId: Guid,
    amount: int,
    currencyCode: string,
    category: byte,
    description: Option<string>,
    incurredAtUtc: int,
    createdAtUtc: int,
    updatedAtUtc: Option<int>)

  /** What the API returns for an expense: no owner and no metadata. */
  datatype ExpenseDto = ExpenseDto(
    id: Guid,
    amount: int,
    currencyCode: string,
    category: byte,
    description: Option<string>,
    incurredAtUtc: int)

  /** The amount fits the `decimal(18,2)` column. */
  predicate FitsAmountColumn(cents: int) {
    -MaxAmountCents <= cents <= MaxAmountCents
  }
}
