/** `ExpenseCategory`: a closed enumeration stored as a byte. */
module ExpenseCategories {
  import opened Basics

  datatype ExpenseCategory = Groceries | Leisure | Electronics | Utilities | Clothing | Health | Others

  /** The categories in declaration order. */
  const AllCategories: seq<ExpenseCategory> :=
    [Groceries, Leisure, Electronics, Utilities, Clothing, Health, Others]

  /** The byte each category is stored as. */
  function Code(c: ExpenseCategory): (b: byte)
    ensures 1 <= b <= 7
    ensures AllCategories[b - 1] == c
  {
    match c
    case Groceries => 1
    case Leisure => 2
    case Electronics => 3
    case Utilities => 4
    case Clothing => 5
    case Health => 6
    case Others => 7
  }

  /** The named category a stored byte stands for, if any. */
  function FromCode(b: byte): (r: Option<ExpenseCategory>)
    ensures r.Some? <==> 1 <= b <= 7
    ensures r.Some? ==> Code(r.value) == b
  {
    if 1 <= b <= 7 then Some(AllCategories[b - 1]) else None
  }

  /** Decoding a category's code gives the category back. */
  lemma FromCodeOfCode(c: ExpenseCategory)
    ensures FromCode(Code(c)) == Some(c)
  {
  }

  /** There are exactly seven categories, each listed once, with the codes
      1 to 7 in declaration order. */
  lemma SevenCategoriesInOrder()
    ensures |AllCategories| == 7
    ensures forall c: ExpenseCategory :: c in AllCategories
    ensures forall i, j :: 0 <= i < j < 7 ==> AllCategories[i] != AllCategories[j]
    ensures forall i :: 0 <= i < 7 ==> Code(AllCategories[i]) as int == i + 1
  {
    forall c: ExpenseCategory ensures c in AllCategories {
      assert AllCategories[Code(c) - 1] == c;
    }
  }

  /** No named category is stored as 0, the default value of the enum. */
  lemma NoCategoryHasCodeZero(c: ExpenseCategory)
    ensures Code(c) != 0
  {
  }
}
