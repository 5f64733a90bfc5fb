/** Values shared by every service: optional values (Java's nullable references),
    results of operations that may throw, and the identifiers the services exchange. */
module Base {

  /** A nullable Java reference: `None` stands for `null`. */
  datatype Option<+T> = None | Some(value: T) {
    function GetOr(default: T): T {
      match this
      case Some(v) => v
      case None => default
    }
  }

  /** The outcome of an operation that returns a value or throws. */
  datatype Result<+T, +E> = Success(value: T) | Failure(error: E)

  /** The outcome of a `void` operation that may throw. */
  datatype Outcome<+E> = Pass | Fail(error: E)

  /** A `java.util.UUID`, represented by its canonical text (`UUID.toString()`). */
  type Uuid = string

  predicate IsHexDigit(c: char) {
    '0' <= c <= '9' || 'a' <= c <= 'f'
  }

  /** The form of `UUID.toString()`: 36 characters, lower-case hex digits in groups of
      8-4-4-4-12 separated by hyphens. */
  predicate CanonicalUuid(s: string) {
    && |s| == 36
    && forall i :: 0 <= i < 36 ==>
         if i == 8 || i == 13 || i == 18 || i == 23 then s[i] == '-' else IsHexDigit(s[i])
  }

  /** The text of a UUID the program generates (`UUID.randomUUID().toString()`); the
      generator itself is a parameter of the operations that use one. */
  type UuidText = s: string | CanonicalUuid(s) witness "00000000-0000-0000-0000-000000000000"

  /** The first group of canonical UUID text is eight hex digits. */
  lemma UuidFirstGroupIsHex(s: string)
    requires CanonicalUuid(s)
    ensures forall j :: 0 <= j < 8 ==> IsHexDigit(s[j])
  {
    forall j | 0 <= j < 8
      ensures IsHexDigit(s[j])
    {
      assert j != 8 && j != 13 && j != 18 && j != 23;
    }
  }

  /** Canonical UUID text never contains a colon. */
  lemma CanonicalUuidHasNoColon(s: string)
    requires CanonicalUuid(s)
    ensures ':' !in s
  {
  }

  /** A `LocalDateTime` / `Instant` reading of the clock; the clock itself is a parameter. */
  type Time = int
}
