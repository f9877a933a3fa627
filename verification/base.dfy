/** Failure-compatible wrappers shared by the whole model. */
module Base {

  datatype Option<+T> = None | Some(value: T)

  /** The points at which the transformation throws and the whole run aborts. */
  datatype Crash =
    /** A header to number is not the direct child of a section: the cast in
        HeaderBlock.getSection() fails. */
    | HeaderOutsideSection
    /** A word inside a recognised number prefix is not a decimal numeral:
        Integer.parseInt throws. */
    | MalformedNumber(word: string)
    /** A reference placeholder whose parent is not a macro marker: the cast of
        its parent fails. */
    | ReferenceOutsideMarker(target: string)
    /** A second reference placeholder in a macro marker that an earlier one has
        already replaced: the detached marker has no parent to replace it in. */
    | MarkerAlreadyReplaced(target: string)

  datatype Result<+T> = Ok(value: T) | Fail(crash: Crash) {

    predicate IsFailure() {
      Fail?
    }

    function PropagateFailure<U>(): Result<U>
      requires Fail?
    {
      Fail(crash)
    }

    function Extract(): T
      requires Ok?
    {
      value
    }
  }

  /** Moving the head of rest to the end of done keeps their concatenation. */
  lemma ShiftHead<T>(done: seq<T>, rest: seq<T>)
    requires |rest| > 0
    ensures done + [rest[0]] + rest[1..] == done + rest
  {
  }

  // Small facts about short sequence displays, stated once so that proofs
  // about large literal documents need not rediscover them.

  lemma Nil<T>(s: seq<T>)
    ensures [] + s == s && s + [] == s
  {
  }

  lemma One<T>(a: T)
    ensures [a][1..] == []
  {
  }

  lemma Two<T>(a: T, b: T)
    ensures [a] + [b] == [a, b] && [a, b][1..] == [b]
  {
  }

  lemma Three<T>(a: T, b: T, c: T)
    ensures [a] + [b, c] == [a, b, c] && [a, b] + [c] == [a, b, c] && [a, b, c][1..] == [b, c]
  {
  }

  lemma Four<T>(a: T, b: T, c: T, d: T)
    ensures [a, b] + [c, d] == [a, b, c, d]
  {
  }
}
