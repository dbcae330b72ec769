/** `CreateExpenseRequest`, the body of expense create and update, and the
    validation its attributes declare. */
module ExpenseRequests {
  import opened Basics
  import opened Annotations
  import opened ExpenseCategories
  import opened ExpenseEntity

  /** The request as deserialised. `amount` is in cents (0 when the property
      is missing); `currencyCode` is "CAD", its initialiser, when the property
      is missing; `category` is the raw byte of the enum, which the
      deserialiser fills with whatever number the body holds (0 when the
      property is missing); a missing description or instant is `None`. */
  datatype CreateExpenseRequest = CreateExpenseRequest(
    amount: int,
    currencyCode: string,
    category: byte,
    description: Option<string>,
    incurredAtUtc: Option<int>)

  const DescriptionMaxLength: nat := 500

  /** The attributes exactly as written: `[Range(0.01, double.MaxValue)]` on
      the amount, `[Required]` and `[StringLength(3, MinimumLength = 3)]` on
      the currency code, `[StringLength(500)]` on the optional description.
      `[Required]` on the non-nullable enum `Category` never fails, so it adds
      nothing; `IncurredAtUtc` carries no attribute. In plain terms: at least
      one cent, a currency code of three characters not all white space, and
      a description, when given, of at most 500 characters. */
  predicate AnnotationsAccept(r: CreateExpenseRequest)
    ensures AnnotationsAccept(r) <==>
              && r.amount >= 1
              && |r.currencyCode| == 3 && (exists i :: 0 <= i < 3 && !Text.IsWhiteSpace(r.currencyCode[i]))
              && (r.description.Some? ==> |r.description.value| <= 500)
  {
    && r.amount >= 1
    && Required(r.currencyCode) && StringLength(r.currencyCode, 3, 3)
    && (r.description.Some? ==> StringLength(r.description.value, 0, DescriptionMaxLength))
  }

  /** The corrected validation: the attributes, and a category code that
      names one of the seven categories. */
  predicate IsValid(r: CreateExpenseRequest)
    ensures IsValid(r) <==> AnnotationsAccept(r) && 1 <= r.category <= 7
  {
    AnnotationsAccept(r) && FromCode(r.category).Some?
  }

  /** As written, a request without a category passes validation although
      code 0 names no category. */
  lemma MissingCategoryPassesAnnotations()
    ensures var r := CreateExpenseRequest(1000, "USD", 0, None, None);
            AnnotationsAccept(r) && FromCode(r.category) == None
  {
    var r := CreateExpenseRequest(1000, "USD", 0, None, None);
    assert !Text.IsWhiteSpace(r.currencyCode[0]);
  }

  /** Under the corrected validation a request names a category, and storing
      that category keeps the request's code. */
  lemma ValidRequestNamesCategory(r: CreateExpenseRequest)
    requires IsValid(r)
    ensures 1 <= r.category <= 7
    ensures Code(FromCode(r.category).value) == r.category
  {
  }

  /** No attribute looks at the category or the instant: changing either
      never changes the verdict. */
  lemma AnnotationsIgnoreCategoryAndInstant(r: CreateExpenseRequest, category: byte, incurredAtUtc: Option<int>)
    ensures AnnotationsAccept(r) <==> AnnotationsAccept(r.(category := category, incurredAtUtc := incurredAtUtc))
  {
  }

  /** `double.MaxValue` bounds nothing: an amount too large for the
      `decimal(18,2)` column passes the attributes. */
  lemma AcceptedAmountMayNotFitColumn()
    ensures AnnotationsAccept(CreateExpenseRequest(MaxAmountCents + 1, "USD", 1, None, None))
    ensures !FitsAmountColumn(MaxAmountCents + 1)
  {
    assert !Text.IsWhiteSpace("USD"[0]);
  }

  /** The boundaries, as written: one cent is the least amount; the currency
      code is checked for its length only, so digits pass but three spaces do
      not; 500 description characters pass and 501 do not; the codes 0 and 8
      pass. The corrected validation refuses 0 and 8 and accepts 1 and 7. */
  lemma ValidationBoundaries()
    ensures AnnotationsAccept(CreateExpenseRequest(1, "USD", 1, None, None))
    ensures !AnnotationsAccept(CreateExpenseRequest(0, "USD", 1, None, None))
    ensures AnnotationsAccept(CreateExpenseRequest(1, "123", 1, None, None))
    ensures !AnnotationsAccept(CreateExpenseRequest(1, "   ", 1, None, None))
    ensures !AnnotationsAccept(CreateExpenseRequest(1, "US", 1, None, None))
    ensures AnnotationsAccept(CreateExpenseRequest(1, "USD", 7, Some(seq(500, _ => 'x')), None))
    ensures !AnnotationsAccept(CreateExpenseRequest(1, "USD", 7, Some(seq(501, _ => 'x')), None))
    ensures AnnotationsAccept(CreateExpenseRequest(1, "USD", 0, None, None))
    ensures AnnotationsAccept(CreateExpenseRequest(1, "USD", 8, None, None))
    ensures IsValid(CreateExpenseRequest(1, "USD", 1, None, None)) && IsValid(CreateExpenseRequest(1, "USD", 7, None, None))
    ensures !IsValid(CreateExpenseRequest(1, "USD", 0, None, None)) && !IsValid(CreateExpenseRequest(1, "USD", 8, None, None))
  {
    assert !Text.IsWhiteSpace("USD"[0]) && !Text.IsWhiteSpace("123"[0]);
  }
}
