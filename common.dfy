/** Values shared by every module: optional values and results with an error text. */
module Common {

  /** A value that may be absent (Python `None`, JavaScript `undefined`/`null`). */
  datatype Option<T> = None | Some(value: T)
  {
    function GetOr(default: T): (r: T)
      ensures this.Some? ==> r == this.value
      ensures this.None? ==> r == default
    {
      match this
      case None => default
      case Some(v) => v
    }
  }

  /** The outcome of an operation that can fail with a message. */
  datatype Result<T> = Ok(value: T) | Err(error: string)
  {
    predicate IsFailure() {
      Err?
    }

    function PropagateFailure<U>(): Result<U>
      requires Err?
    {
      Err(error)
    }

    function Extract(): T
      requires Ok?
    {
      value
    }
  }

  /**
   * API Gateway `queryStringParameters`: absent from the event, JSON `null` (what a request without
   * parameters carries), or a map of parameter values.
   */
  datatype QueryParams = Missing | Null | Params(values: map<string, string>)
  {
    /** `event.get("queryStringParameters", {}).get(key, default)`, defined when the object is not null. */
    function Lookup(key: string, default: string): (r: string)
      requires !Null?
      ensures Params? && key in values ==> r == values[key]
      ensures Missing? || key !in values ==> r == default
    {
      if Params? && key in values then values[key] else default
    }
  }

  /** A prefix of length `n` is the prefix of length `n - 1` and the element before `n`. */
  lemma TakeLast<T>(s: seq<T>, n: nat)
    requires 0 < n <= |s|
    ensures s[..n] == s[..n - 1] + [s[n - 1]]
  {
  }

  /** A sequence is the part before position `i`, the element at `i` and the part after it. */
  lemma SplitAround<T>(s: seq<T>, i: nat)
    requires i < |s|
    ensures s == s[..i] + [s[i]] + s[i + 1..]
  {
  }

  /** Concatenation is associative. */
  lemma AppendAssoc<T>(a: seq<T>, b: seq<T>, c: seq<T>)
    ensures a + (b + c) == (a + b) + c
  {
  }

  /** The empty sequence is a right unit of concatenation. */
  lemma AppendEmpty<T>(a: seq<T>)
    ensures a + [] == a
  {
  }

  /** An element of a concatenation is in one of its parts. */
  lemma InAppend<T>(a: seq<T>, b: seq<T>, x: T)
    ensures x in a + b <==> x in a || x in b
  {
  }

  /** The empty sequence is a left unit of concatenation. */
  lemma EmptyAppend<T>(a: seq<T>)
    ensures [] + a == a
  {
  }
}
