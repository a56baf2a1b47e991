/** The Option type used for "first index where ..." lookups. */
module Wrappers {
  datatype Option<+T> = None | Some(value: T)
}

/** The two record types of the ledger and the persisted state built from them. */
module Records {

  /** One spending record. The store assigns `id`; `date` is text meant to be `YYYY-MM-DD`.
      `amount` is exact (a real) rather than a double. */
  datatype Expense = Expense(id: int, amount: real, description: string, category: string, date: string)

  /** A category is identified by its name; there is no surrogate key. */
  datatype Category = Category(name: string, description: string)

  /** Everything the store persists: both lists in storage order and the id counter. */
  datatype Snapshot = Snapshot(expenses: seq<Expense>, categories: seq<Category>, nextExpenseId: int)

  /** What the data file holds, as far as the store can tell:
      no file at all, a file that cannot be opened, a file whose content does not parse,
      or a document carrying a snapshot. */
  datatype Document = Absent | Unreadable | Malformed | Stored(snapshot: Snapshot)
}
