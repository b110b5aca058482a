/** A minimal optional-value datatype, used for JavaScript slots that may be
    absent (an omitted or falsy argument, a property never assigned). */
module Wrappers {

  datatype Option<+T> = None | Some(value: T)
}
