/** Small vocabulary of the source language: values that may be absent, defaults for empty strings, slices,
    maxima, and lists without repetition. */
module Options {
  datatype Option<+T> = None | Some(value: T)

  function OrElse(s: string, default: string): string { if s == "" then default else s }

  /** The slice s[:b]; a negative bound counts from the end. */
  function Upto<T>(s: seq<T>, b: int): (r: seq<T>)
    ensures r <= s
    ensures b >= |s| ==> r == s
  {
    if b >= |s| then s else if b >= 0 then s[..b] else if -b >= |s| then [] else s[..|s| + b]
  }

  function Max(a: real, b: real): real { if a >= b then a else b }

  ghost predicate Distinct<T>(s: seq<T>) { forall i, j :: 0 <= i < j < |s| ==> s[i] != s[j] }
}
