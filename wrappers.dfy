/** Optional values, results and the error conditions the engine raises. */
module Wrappers {

  datatype Option<T> = None | Some(value: T)

  /** The Python exceptions the modelled code raises or lets escape, by cause. */
  datatype Error =
    | ColumnNotFound                   // a "column not found" ValueError or a KeyError on a column
    | NoColumnFound                    // none of the listed baseline columns is present
    | MissingMapping                   // a categorical declaration without categories
    | MissingKey(key: string)          // a KeyError on a dictionary lookup
    | NotANumber                       // int() of a NaN mean
    | TypeMismatch                     // arithmetic on a text cell, or a Python type error
    | ColumnAssertion                  // an `assert col in df.columns` that fails
    | RatioShape                       // indicator columns that are neither both lists nor both names
    | BadPlaceholder                   // a name pattern without exactly one "{}"
    | TitleLength                      // a title outside 1..100 characters
    | EmptyReport                      // a report without sections
    | UnknownProcessor(kind: string)   // a type name the dispatch table does not know

  datatype Result<T> = Ok(value: T) | Err(error: Error) {
    predicate IsFailure() { Err? }

    function PropagateFailure<U>(): Result<U>
      requires Err?
    {
      Err(error)
    }

    function Extract(): T
      requires Ok?
    {
      value
    }
  }
}
