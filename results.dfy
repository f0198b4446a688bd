/** The exceptions the geometry engine raises, and a result type that carries them. */
module Results {

  /** One constructor per way an operation of the engine can fail. */
  datatype Error =
    | ScalarExpected      // ValueError: the divisor of `/` or `//` is iterable
    | ZeroDivision        // ZeroDivisionError: a component divided by zero
    | DimensionTooLarge   // NotImplementedError: cross product of a vector longer than 3
    | SizeMismatch        // ValueError: matrix and operand sizes disagree
    | EmptyArgument       // ValueError: max() or min() of an empty sequence
    | IndexOutOfRange     // IndexError: a component that does not exist
    | NoConvergence       // ValueError: triangulation of parallel lines

  datatype Result<T> = Ok(value: T) | Err(error: Error)
}
