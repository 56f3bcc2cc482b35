/** The few parts of the Java platform that the modelled code relies on:
    references that may be null, the exceptions it throws, 32-bit `int`,
    and `String.split` with a one-character separator. */
module JavaLang {

  /** A Java reference that may be null: `None` stands for `null`. */
  datatype Option<+T> = None | Some(value: T)

  /** The exceptions the modelled code raises. */
  datatype Exception =
    | NullPointerException
    | IllegalArgumentException(message: string)
    | ArrayIndexOutOfBoundsException(index: int)

  /** The outcome of a call that either returns a value or throws. */
  datatype Result<+T> = Success(value: T) | Failure(error: Exception)

  /** Java's `int`. */
  type Int32 = x: int | -0x8000_0000 <= x < 0x8000_0000

  /** Reduces an unbounded integer to Java `int` arithmetic (two's complement wrap-around). */
  function Wrap32(x: int): (r: Int32)
    ensures (r - x) % 0x1_0000_0000 == 0
  {
    var m := x % 0x1_0000_0000;
    if m < 0x8000_0000 then m else m - 0x1_0000_0000
  }

  /** The path separator; the regular expression `\/` matches exactly this character. */
  const SEPARATOR: char := '/'

  /** The pieces of `s` between separators, empty pieces included: one more piece than
      `s` has separators, and no piece contains one. */
  function RawSplit(s: string): (r: seq<string>)
    ensures |r| >= 1
    ensures forall i :: 0 <= i < |r| ==> SEPARATOR !in r[i]
  {
    if |s| == 0 then [""]
    else if s[0] == SEPARATOR then [""] + RawSplit(s[1..])
    else
      var rest := RawSplit(s[1..]);
      [[s[0]] + rest[0]] + rest[1..]
  }

  /** Drops the run of empty strings at the end of `parts`: the result is the longest
      prefix of `parts` that does not end with an empty string. */
  function StripTrailingEmpty(parts: seq<string>): (r: seq<string>)
    ensures r <= parts
    ensures r != [] ==> r[|r| - 1] != ""
    ensures forall i :: |r| <= i < |parts| ==> parts[i] == ""
  {
    if parts != [] && parts[|parts| - 1] == "" then StripTrailingEmpty(parts[..|parts| - 1])
    else parts
  }

  /** Java's `s.split("\\/")` (a limit of zero): a string without separator is returned
      whole, even when it is empty; otherwise the pieces between separators with the
      trailing empty pieces removed, so leading empty pieces stay. */
  function Split(s: string): (r: seq<string>)
    ensures forall i :: 0 <= i < |r| ==> SEPARATOR !in r[i]
    ensures SEPARATOR !in s ==> r == [s]
    ensures SEPARATOR in s && r != [] ==> r[|r| - 1] != ""
  {
    if SEPARATOR !in s then [s] else StripTrailingEmpty(RawSplit(s))
  }

  /** Every piece of `RawSplit(s)` is empty exactly when `s` consists of separators only. */
  lemma {:induction false} RawSplitAllEmpty(s: string)
    ensures (forall i :: 0 <= i < |RawSplit(s)| ==> RawSplit(s)[i] == "")
            <==> (forall i :: 0 <= i < |s| ==> s[i] == SEPARATOR)
  {
    if |s| > 0 {
      RawSplitAllEmpty(s[1..]);
      var r, rest := RawSplit(s), RawSplit(s[1..]);
      if s[0] == SEPARATOR {
        assert r == [""] + rest;
        assert forall i :: 0 <= i < |rest| ==> r[i + 1] == rest[i];
        assert (forall i :: 0 <= i < |s| ==> s[i] == SEPARATOR)
               <==> (forall i :: 0 <= i < |s[1..]| ==> s[1..][i] == SEPARATOR);
      } else {
        assert r[0] == [s[0]] + rest[0];
      }
    }
  }

  /** `split` yields no segment at all exactly for a non-empty string of separators
      ("/", "//", ...). */
  lemma SplitEmptyIffOnlySeparators(s: string)
    ensures Split(s) == [] <==> |s| > 0 && forall i :: 0 <= i < |s| ==> s[i] == SEPARATOR
  {
    RawSplitAllEmpty(s);
    var raw := RawSplit(s);
    if |s| > 0 && forall i :: 0 <= i < |s| ==> s[i] == SEPARATOR {
      assert s[0] == SEPARATOR;
      assert forall i :: 0 <= i < |raw| ==> raw[i] == "";
    }
    if Split(s) == [] {
      assert SEPARATOR in s;
      assert forall i :: 0 <= i < |raw| ==> raw[i] == "";
    }
  }
}
