/** Small functions that several components use. */
module Basics {
  function Min(a: nat, b: nat): nat { if a < b then a else b }

  /** `str::split` at one character: always at least one piece, possibly empty ones. */
  function SplitAt(text: string, separator: char): (pieces: seq<string>)
    ensures pieces != []
  {
    if text == "" then [""]
    else
      var rest := SplitAt(text[1..], separator);
      if text[0] == separator then [""] + rest else [[text[0]] + rest[0]] + rest[1..]
  }
}
