/**
 The outcomes of the modelled operations. The errors are the Python exceptions
 the program raises on the inputs it does not guard against, plus one outcome
 that belongs to the model alone: the iterative estimator runs out of its
 sweep budget.
 */
module Errors {

  datatype Error =
    | KeyError          // a dictionary lookup of a page that is not a key
    | IndexError        // a pick from, or the first element of, an empty page list
    | ZeroDivisionError // a division by a count of zero
    | OutOfFuel         // the sweep budget of the model ran out before convergence

  datatype Result<T> = Success(value: T) | Failure(error: Error)
}
