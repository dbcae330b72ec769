/** `ApplicationDbContext`: the two tables and the rules `OnModelCreating`
    declares for them. Each table is a map from primary key to row; each
    write is an `Add` or `Remove` followed by `SaveChangesAsync`, which the
    database refuses, leaving both tables as they were, when the write would
    break one of the rules. */
module Database {
  import opened Basics
  import opened Guids
  import opened UserEntity
  import opened ExpenseEntity

  /** Every row is stored under its own primary key. */
  predicate UsersKeyedById(users: map<Guid, User>) {
    forall k :: k in users ==> users[k].id == k
  }

  predicate ExpensesKeyedById(expenses: map<Guid, Expense>) {
    forall k :: k in expenses ==> expenses[k].id == k
  }

  /** The unique index on `User.Email` (an ordinal comparison here). */
  predicate UniqueEmails(users: map<Guid, User>) {
    forall a, b :: a in users && b in users && users[a].email == users[b].email ==> a == b
  }

  /** The address is one of the stored users' addresses. */
  predicate EmailInUse(users: map<Guid, User>, email: string)
    ensures EmailInUse(users, email) <==> email in (set k | k in users :: users[k].email)
  {
    exists k :: k in users && users[k].email == email
  }

  /** The foreign key `Expense.UserId` to `User.Id`. */
  predicate OwnersExist(users: map<Guid, User>, expenses: map<Guid, Expense>) {
    forall k :: k in expenses ==> expenses[k].userId in users
  }

  /** The `decimal(18,2)` column of `Expense.Amount`. */
  predicate AmountsFit(expenses: map<Guid, Expense>) {
    forall k :: k in expenses ==> FitsAmountColumn(expenses[k].amount)
  }

  /** The string columns of `User`. */
  predicate UserColumnsFit(users: map<Guid, User>) {
    forall k :: k in users ==> FitsColumns(users[k])
  }

  /** Everything the database guarantees of its contents. */
  predicate Consistent(users: map<Guid, User>, expenses: map<Guid, Expense>)
    ensures Consistent(users, expenses) ==>
              && (forall a, b :: a in users && b in users && a != b ==> users[a].email != users[b].email)
              && (forall k :: k in expenses ==> expenses[k].userId in users && expenses[k].userId == users[expenses[k].userId].id)
  {
    && UsersKeyedById(users) && ExpensesKeyedById(expenses)
    && UniqueEmails(users) && OwnersExist(users, expenses)
    && AmountsFit(expenses) && UserColumnsFit(users)
  }

  /** The keys of the expenses a user owns: the `User.Expenses` collection. */
  function ExpensesOf(expenses: map<Guid, Expense>, userId: Guid): (ids: set<Guid>)
    ensures ids <= expenses.Keys
    ensures forall k :: k in expenses ==> (k in ids <==> expenses[k].userId == userId)
  {
    set k | k in expenses && expenses[k].userId == userId
  }

  /** The expenses left once a user is deleted: `OnDelete(Cascade)` removes
      exactly that user's expenses and keeps every other row as it was. */
  function WithoutOwner(expenses: map<Guid, Expense>, userId: Guid): (r: map<Guid, Expense>)
    ensures r.Keys == expenses.Keys - ExpensesOf(expenses, userId)
    ensures forall k :: k in r ==> r[k] == expenses[k] && r[k].userId != userId
  {
    map k | k in expenses && expenses[k].userId != userId :: expenses[k]
  }

  /** A user whose id is not yet stored owns no expense, so a new user's
      `Expenses` collection starts empty. */
  lemma NewUserOwnsNothing(users: map<Guid, User>, expenses: map<Guid, Expense>, u: User)
    requires Consistent(users, expenses)
    requires u.id !in users
    ensures ExpensesOf(expenses, u.id) == {}
  {
  }

  /** Deleting a user and cascading to their expenses keeps the database
      consistent: no expense is left without its owner. */
  lemma CascadeKeepsConsistent(users: map<Guid, User>, expenses: map<Guid, Expense>, userId: Guid)
    requires Consistent(users, expenses)
    ensures Consistent(users - {userId}, WithoutOwner(expenses, userId))
  {
  }

  /** Deleting a user who does not exist leaves the expenses as they were. */
  lemma CascadeOfAbsentUser(users: map<Guid, User>, expenses: map<Guid, Expense>, userId: Guid)
    requires Consistent(users, expenses)
    requires userId !in users
    ensures WithoutOwner(expenses, userId) == expenses
  {
  }

  class ApplicationDbContext {
    var users: map<Guid, User>
    var expenses: map<Guid, Expense>

    ghost predicate Valid()
      reads this
      ensures Valid() <==> Consistent(users, expenses)
    {
      Consistent(users, expenses)
    }

    /** An empty database. */
    constructor ()
      ensures Valid()
      ensures users == map[] && expenses == map[]
    {
      users := map[];
      expenses := map[];
    }

    /** `Expenses.Add(e)` and `SaveChangesAsync()`: refused when the key is
        taken, the owner does not exist or the amount does not fit. */
    method InsertExpense(e: Expense) returns (saved: bool)
      requires Valid()
      modifies this
      ensures Valid() && users == old(users)
      ensures saved <==> e.id !in old(expenses) && e.userId in users && FitsAmountColumn(e.amount)
      ensures expenses == if saved then old(expenses)[e.id := e] else old(expenses)
    {
      saved := e.id !in expenses && e.userId in users && FitsAmountColumn(e.amount);
      if saved {
        expenses := expenses[e.id := e];
      }
    }

    /** Changes to a tracked expense and `SaveChangesAsync()`: refused when the
        row is gone, the owner does not exist or the amount does not fit. */
    method SaveExpense(e: Expense) returns (saved: bool)
      requires Valid()
      modifies this
      ensures Valid() && users == old(users)
      ensures saved <==> e.id in old(expenses) && e.userId in users && FitsAmountColumn(e.amount)
      ensures expenses == if saved then old(expenses)[e.id := e] else old(expenses)
    {
      saved := e.id in expenses && e.userId in users && FitsAmountColumn(e.amount);
      if saved {
        expenses := expenses[e.id := e];
      }
    }

    /** `Expenses.Remove(e)` and `SaveChangesAsync()`. */
    method RemoveExpense(id: Guid) returns (removed: bool)
      requires Valid()
      modifies this
      ensures Valid() && users == old(users)
      ensures removed <==> id in old(expenses)
      ensures expenses == old(expenses) - {id}
    {
      removed := id in expenses;
      expenses := expenses - {id};
    }

    /** `Users.Add(u)` and `SaveChangesAsync()`: refused when the key is taken,
        the unique e-mail index already holds the address, or a string does
        not fit its column. */
    method InsertUser(u: User) returns (saved: bool)
      requires Valid()
      modifies this
      ensures Valid() && expenses == old(expenses)
      ensures saved <==> u.id !in old(users) && !EmailInUse(old(users), u.email) && FitsColumns(u)
      ensures users == if saved then old(users)[u.id := u] else old(users)
    {
      saved := u.id !in users && !EmailInUse(users, u.email) && FitsColumns(u);
      if saved {
        users := users[u.id := u];
      }
    }

    /** `Users.Remove(u)` and `SaveChangesAsync()`, with the cascade: the
        user's expenses go with the user and no other row changes. No
        endpoint deletes users; this is the behaviour the model declares. */
    method RemoveUser(id: Guid) returns (removed: bool)
      requires Valid()
      modifies this
      ensures Valid()
      ensures removed <==> id in old(users)
      ensures users == old(users) - {id}
      ensures expenses == WithoutOwner(old(expenses), id)
    {
      CascadeKeepsConsistent(users, expenses, id);
      removed := id in users;
      users := users - {id};
      expenses := WithoutOwner(expenses, id);
    }
  }
}
