/** Shared vocabulary of the model: optional values, results, the length
    that zod's string checks measure, and the two library checks the model
    does not open up. */
module Common {

  datatype Option<+T> = None | Some(value: T) {
    function GetOr(default: T): T {
      match this
      case Some(v) => v
      case None => default
    }
  }

  datatype Result<+T, +E> = Success(value: T) | Failure(error: E)

  /** The library checks that the model treats as black boxes:
      `dateParses(s)` stands for `!isNaN(new Date(s).getTime())`, and
      `isEmail(s)` for zod's `.email()` format. */
  datatype Host = Host(dateParses: string -> bool, isEmail: string -> bool)

  /** A character outside the Basic Multilingual Plane takes two UTF-16
      code units in a JavaScript string. */
  function CodeUnits(c: char): nat {
    if c as int >= 0x1_0000 then 2 else 1
  }

  /** JavaScript's `s.length`: the number of UTF-16 code units, which is
      what zod's `.min`, `.max` and `.length` compare against. */
  function Utf16Length(s: string): nat {
    if s == [] then 0 else CodeUnits(s[0]) + Utf16Length(s[1..])
  }

  /** The UTF-16 length is never below the number of characters (what a
      Postgres `varchar(n)` counts) and at most twice it. */
  lemma {:induction false} Utf16LengthBounds(s: string)
    ensures |s| <= Utf16Length(s) <= 2 * |s|
  {
    if s != [] {
      Utf16LengthBounds(s[1..]);
    }
  }

  /** On text made of Basic Multilingual Plane characters both counts agree. */
  lemma {:induction false} Utf16LengthOfBmp(s: string)
    requires forall i :: 0 <= i < |s| ==> s[i] as int < 0x1_0000
    ensures Utf16Length(s) == |s|
  {
    if s != [] {
      Utf16LengthOfBmp(s[1..]);
    }
  }

  /** JavaScript truthiness of an optional string: `undefined` and `""`
      are falsy, so `x || null` keeps exactly the non-empty strings. */
  predicate Truthy(o: Option<string>) {
    o.Some? && o.value != ""
  }
}
