/** Basic types shared by the bulk-body model: bytes, optional values,
    fallible results and the errors that `Add` can return. */
module Types {

  /** A Go `byte`. */
  newtype byte = x: int | 0 <= x < 256

  /** A Go `[]byte` or `string`: Go strings are byte sequences. */
  type bytes = seq<byte>

  /** The `newline` constant of the source, the record delimiter. */
  const Newline: byte := 10

  /** True when `s` holds no newline byte, so it fits on one line. */
  predicate NoNewline(s: bytes) {
    forall i | 0 <= i < |s| :: s[i] != Newline
  }

  lemma NoNewlineConcat(a: bytes, b: bytes)
    requires NoNewline(a) && NoNewline(b)
    ensures NoNewline(a + b)
  {
    forall i | 0 <= i < |a + b| ensures (a + b)[i] != Newline {
      if i >= |a| {
        assert (a + b)[i] == b[i - |a|];
      }
    }
  }

  /** The errors a call to `Add` can return. Go's `error` is an open
      interface; the model keeps the one error the core itself defines and
      stands for the others with two constructors. */
  datatype Error =
    | BulkBodyFull            // the source's `BulkBodyFull`
    | MarshalFailed           // an error returned by `json.Marshal`
    | QueryFailed(code: nat)  // any error an entry's query may return

  datatype Option<+T> = None | Some(value: T)

  datatype Result<+T> = Ok(value: T) | Err(error: Error) {
    predicate IsFailure() {
      Err?
    }

    function PropagateFailure<U>(): Result<U>
      requires Err?
    {
      Err(error)
    }

    function Extract(): T
      requires Ok?
    {
      value
    }
  }
}
